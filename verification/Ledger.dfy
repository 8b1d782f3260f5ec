/** The ledger of group to job, as the scheduling thread and the pod informer interleave on it.

    The scheduling thread runs PreFilter and AskFlux, which let go of the mutex between looking for an old
    job, cancelling it, asking for a match and writing the answer down; a program counter says where it is.
    The informer's handlers hold the mutex throughout, so each is one step, at any point. */
module Ledger {
  import opened Capacity

  type Group = string

  datatype CancelReply = DialFailed | CallFailed | Refused | Accepted

  /** Where the scheduling thread stands. */
  datatype Counter =
    | Idle
    | Looking(group: Group)
    | CancellingOld(group: Group)
    | Matching(group: Group)
    | Storing(group: Group, job: JobId)
    | Sizing(group: Group)
    | CancellingNew(group: Group)
    | Admitting(group: Group)

  /** `used`, `cancelled`, `failed`, `matches` and `removals` record the past. */
  datatype State = State(
    jobOf: map<Group, JobId>,
    live: map<JobId, Grant>,
    permitted: set<Group>,
    pc: Counter,
    used: set<JobId>,
    cancelled: multiset<JobId>,
    failed: nat,
    matches: multiset<Group>,
    removals: multiset<Group>)

  const START := State(map[], map[], {}, Idle, {}, multiset{}, 0, multiset{}, multiset{})

  datatype PodPhase = Pending | Running | Succeeded | Failed | Unknown

  datatype PodEvent = Updated(newPhase: PodPhase) | Deleted(phase: PodPhase)

  datatype PodKey = PodKey(namespace: string, name: string, groupLabel: string)

  datatype Step =
    | Begin(namespace: string, groupLabel: string)
    | Look
    | CancelOld(reply: CancelReply)
    | Match(job: JobId, grant: Grant)
    | MatchFails
    | Store
    | Size(fits: bool)
    | CancelNew(reply: CancelReply)
    | Admit
    | Informer(pod: PodKey, groupFound: bool, event: PodEvent, reply: CancelReply)
    | DropPermit(group: Group)
    | Expire(group: Group)

  function FullName(namespace: string, groupLabel: string): Group {
    namespace + "/" + groupLabel
  }

  function FakeGroup(pod: PodKey): Group {
    "fluence-solo-" + pod.namespace + "-" + pod.name
  }

  /** The group a pod event is charged to; a pod whose PodGroup is gone falls back to a made-up name. */
  function EventGroup(pod: PodKey, groupFound: bool): Group {
    if pod.groupLabel == "" || !groupFound then FakeGroup(pod) else FullName(pod.namespace, pod.groupLabel)
  }

  /** Which events ask for the resources back. The case for deleting a succeeded pod is empty, and Go
      does not fall through to the next. */
  predicate FreesResources(e: PodEvent) {
    match e
    case Updated(phase) => phase == Succeeded || phase == Failed
    case Deleted(phase) => phase == Pending || phase == Running
  }

  /** `cancelFluxJob`: forgets the job only when Fluxion accepted the cancel. */
  function Cancel(s: State, g: Group, reply: CancelReply): State {
    if g !in s.jobOf then s
    else if reply == Accepted then
      s.(jobOf := s.jobOf - {g}, live := s.live - {s.jobOf[g]}, cancelled := s.cancelled + multiset{s.jobOf[g]})
    else s.(failed := s.failed + 1)
  }

  function Remove(s: State, g: Group): State {
    if g in s.permitted then s.(permitted := s.permitted - {g}, removals := s.removals + multiset{g}) else s
  }

  ghost predicate Enabled(s: State, step: Step) {
    match step
    case Begin(ns, groupLabel) => s.pc.Idle? && groupLabel != "" && FullName(ns, groupLabel) !in s.permitted
    case Look => s.pc.Looking?
    case CancelOld(_) => s.pc.CancellingOld?
    case Match(job, grant) =>
      s.pc.Matching? && job !in s.used && forall j :: j in s.live ==> s.live[j].cores !! grant.cores
    case MatchFails => s.pc.Matching?
    case Store => s.pc.Storing?
    case Size(_) => s.pc.Sizing?
    case CancelNew(_) => s.pc.CancellingNew?
    case Admit => s.pc.Admitting?
    case Informer(_, _, _, _) => true
    case DropPermit(_) => true
    case Expire(g) => g in s.permitted
  }

  function Next(s: State, step: Step): State {
    match step
    case Begin(ns, groupLabel) => s.(pc := Looking(FullName(ns, groupLabel)))
    case Look =>
      if !s.pc.Looking? then s
      else s.(pc := if s.pc.group in s.jobOf then CancellingOld(s.pc.group) else Matching(s.pc.group))
    case CancelOld(reply) =>
      if !s.pc.CancellingOld? then s
      else Cancel(s, s.pc.group, reply).(pc := Matching(s.pc.group))
    case Match(job, grant) =>
      if !s.pc.Matching? then s
      else s.(pc := Storing(s.pc.group, job), live := s.live[job := grant], used := s.used + {job},
              matches := s.matches + multiset{s.pc.group})
    case MatchFails => s.(pc := Idle)
    case Store =>
      if !s.pc.Storing? then s
      else s.(pc := Sizing(s.pc.group), jobOf := s.jobOf[s.pc.group := s.pc.job])
    case Size(fits) =>
      if !s.pc.Sizing? then s
      else s.(pc := if fits then Admitting(s.pc.group) else CancellingNew(s.pc.group))
    case CancelNew(reply) =>
      if !s.pc.CancellingNew? then s
      else Cancel(s, s.pc.group, reply).(pc := Admitting(s.pc.group))
    case Admit =>
      if !s.pc.Admitting? then s
      else s.(pc := Idle, permitted := s.permitted + {s.pc.group})
    case Informer(pod, groupFound, event, reply) =>
      if FreesResources(event) then Cancel(s, EventGroup(pod, groupFound), reply) else s
    case DropPermit(g) => Remove(s, g)
    case Expire(g) => Remove(s, g)
  }

  ghost predicate Possible(steps: seq<Step>) {
    steps == [] || (Possible(steps[..|steps| - 1]) && Enabled(Run(steps[..|steps| - 1]), steps[|steps| - 1]))
  }

  function Run(steps: seq<Step>): State {
    if steps == [] then START else Next(Run(steps[..|steps| - 1]), steps[|steps| - 1])
  }

  // ---- The job ledger ----

  ghost predicate Mapped(s: State, j: JobId) {
    exists g :: g in s.jobOf && s.jobOf[g] == j
  }

  predicate InFlight(s: State, j: JobId) {
    s.pc.Storing? && s.pc.job == j
  }

  /** Live jobs that neither the map nor the scheduling thread knows of. */
  ghost function Strays(s: State): set<JobId> {
    set j | j in s.live && !Mapped(s, j) && !InFlight(s, j)
  }

  /** A failed cancel that the coming write will turn into a stray. */
  function Owed(s: State): nat {
    if (s.pc.Matching? || s.pc.Storing?) && s.pc.group in s.jobOf then 1 else 0
  }

  ghost predicate ValuesLive(s: State) {
    && (forall g :: g in s.jobOf ==> s.jobOf[g] in s.live)
    && (forall g, h :: g in s.jobOf && h in s.jobOf && g != h ==> s.jobOf[g] != s.jobOf[h])
    && (s.pc.Storing? ==> s.pc.job in s.live && !Mapped(s, s.pc.job))
  }

  ghost predicate PastAgrees(s: State) {
    && s.live.Keys <= s.used
    && (forall j :: j in s.cancelled ==> j in s.used && j !in s.live && s.cancelled[j] == 1)
  }

  ghost predicate LedgerInv(s: State) {
    ValuesLive(s) && PastAgrees(s) && |Strays(s)| + Owed(s) <= s.failed && Exclusive(s.live)
  }

  /** The job a step makes the ledger forget: a write that finds an entry of its group drops it. */
  function Overwritten(s: State, step: Step): set<JobId> {
    if step.Store? && s.pc.Storing? && s.pc.group in s.jobOf then {s.jobOf[s.pc.group]} else {}
  }

  lemma CancelKeeps(s: State, g: Group, reply: CancelReply)
    requires LedgerInv(s)
    ensures LedgerInv(Cancel(s, g, reply)) && Strays(Cancel(s, g, reply)) == Strays(s)
  {
    hide Exclusive;
    var t := Cancel(s, g, reply);
    if g in s.jobOf && reply == Accepted {
      var mine := s.jobOf[g];
      forall j | j in t.live ensures Mapped(t, j) <==> Mapped(s, j) {
        if Mapped(s, j) {
          var h :| h in s.jobOf && s.jobOf[h] == j;
          assert h in t.jobOf;
        }
      }
      assert Mapped(s, mine);
      assert Strays(t) == Strays(s);
      assert Exclusive(t.live) by { ExclusiveFewer(s.live, mine); }
    } else {
      assert forall j :: Mapped(t, j) <==> Mapped(s, j);
      assert Strays(t) == Strays(s);
    }
  }

  lemma ExclusiveFewer(live: map<JobId, Grant>, j: JobId)
    requires Exclusive(live)
    ensures Exclusive(live - {j})
  {
  }

  /** After a cancel the counter moves on to Matching; what is owed then is a cancel that just failed. */
  lemma CancelOldKeeps(s: State, reply: CancelReply)
    requires LedgerInv(s) && s.pc.CancellingOld?
    ensures LedgerInv(Next(s, CancelOld(reply))) && Strays(Next(s, CancelOld(reply))) == Strays(s)
  {
    hide Exclusive;
    var g := s.pc.group;
    CancelKeeps(s, g, reply);
    var c := Cancel(s, g, reply);
    var t := c.(pc := Matching(g));
    SamePast(c, t);
    if g in s.jobOf && reply != Accepted {
      assert forall j :: Mapped(c, j) <==> Mapped(s, j);
      assert Strays(c) == Strays(s);
    }
  }

  /** Moving the counter between points that hold no job changes neither strays nor the map. */
  lemma SamePast(s: State, t: State)
    requires t == s.(pc := t.pc) && !s.pc.Storing? && !t.pc.Storing?
    ensures Strays(t) == Strays(s)
    ensures ValuesLive(s) ==> ValuesLive(t)
  {
  }

  lemma MatchKeeps(s: State, job: JobId, grant: Grant)
    requires LedgerInv(s) && Enabled(s, Match(job, grant))
    ensures LedgerInv(Next(s, Match(job, grant))) && Strays(Next(s, Match(job, grant))) == Strays(s)
  {
    var t := Next(s, Match(job, grant));
    assert forall j :: Mapped(t, j) <==> Mapped(s, j);
    assert Strays(t) == Strays(s);
    assert Exclusive(t.live);
  }

  lemma StoreMaps(s: State, j: JobId)
    requires ValuesLive(s) && s.pc.Storing?
    ensures Mapped(Next(s, Store), j) <==> j == s.pc.job || (Mapped(s, j) && j !in Overwritten(s, Store))
  {
    var t := Next(s, Store);
    assert s.pc.group in t.jobOf;
    if Mapped(s, j) && j !in Overwritten(s, Store) {
      var h :| h in s.jobOf && s.jobOf[h] == j;
      assert h in t.jobOf;
    }
    if Mapped(t, j) && j != s.pc.job {
      var h :| h in t.jobOf && t.jobOf[h] == j;
      assert h in s.jobOf;
    }
  }

  lemma StoreKeepsValues(s: State)
    requires ValuesLive(s) && s.pc.Storing?
    ensures ValuesLive(Next(s, Store))
  {
    hide Mapped;
    forall g | g in s.jobOf ensures Mapped(s, s.jobOf[g]) {
      MappedBy(s, g);
    }
  }

  /** The dropped job becomes a stray, and the write makes no other. */
  lemma StoreStrays(s: State)
    requires ValuesLive(s) && s.pc.Storing?
    ensures Overwritten(s, Store) !! Strays(s)
    ensures Strays(Next(s, Store)) == Strays(s) + Overwritten(s, Store)
  {
    hide Mapped;
    var t := Next(s, Store);
    forall j ensures Mapped(t, j) <==> j == s.pc.job || (Mapped(s, j) && j !in Overwritten(s, Store)) {
      StoreMaps(s, j);
    }
    if s.pc.group in s.jobOf {
      MappedBy(s, s.pc.group);
    }
  }

  lemma StoreKeeps(s: State)
    requires LedgerInv(s) && s.pc.Storing?
    ensures LedgerInv(Next(s, Store)) && Overwritten(s, Store) !! Strays(s)
    ensures Strays(Next(s, Store)) == Strays(s) + Overwritten(s, Store)
  {
    hide Exclusive, Strays, ValuesLive;
    StoreKeepsValues(s);
    StoreStrays(s);
    assert |Strays(Next(s, Store))| == |Strays(s)| + |Overwritten(s, Store)|;
  }

  lemma MappedBy(s: State, g: Group)
    requires g in s.jobOf
    ensures Mapped(s, s.jobOf[g])
  {
  }

  lemma OverwrittenOne(s: State, step: Step)
    ensures |Overwritten(s, step)| == if Overwritten(s, step) == {} then 0 else 1
  {
  }

  lemma FewerThan<T>(a: set<T>, b: set<T>)
    requires a <= b
    ensures |a| <= |b|
  {
    assert b == a + (b - a);
  }

  lemma MatchFailsKeeps(s: State)
    requires LedgerInv(s) && s.pc.Matching?
    ensures LedgerInv(Next(s, MatchFails)) && Strays(Next(s, MatchFails)) == Strays(s)
  {
    SamePast(s, Next(s, MatchFails));
  }

  lemma StepKeepsLedger(s: State, step: Step)
    requires LedgerInv(s) && Enabled(s, step)
    ensures LedgerInv(Next(s, step)) && Overwritten(s, step) !! Strays(s)
    ensures Strays(Next(s, step)) == Strays(s) + Overwritten(s, step)
  {
    hide LedgerInv, Cancel, Strays;
    match step
    case Begin(ns, groupLabel) =>
      BeginKeeps(s, step);
    case Look =>
      BeginKeeps(s, step);
    case CancelOld(reply) =>
      CancelOldKeeps(s, reply);
    case Match(job, grant) =>
      MatchKeeps(s, job, grant);
    case MatchFails =>
      MatchFailsKeeps(s);
    case Store =>
      StoreKeeps(s);
    case Size(_) =>
      BeginKeeps(s, step);
    case CancelNew(reply) =>
      CancelNewKeeps(s, reply);
    case Admit =>
      AdmitKeeps(s);
    case Informer(pod, groupFound, event, reply) =>
      if FreesResources(event) {
        CancelKeeps(s, EventGroup(pod, groupFound), reply);
      }
    case DropPermit(g) =>
      RemoveKeeps(s, g);
    case Expire(g) =>
      RemoveKeeps(s, g);
  }

  lemma BeginKeeps(s: State, step: Step)
    requires LedgerInv(s) && Enabled(s, step) && (step.Begin? || step.Look? || step.Size?)
    ensures LedgerInv(Next(s, step)) && Strays(Next(s, step)) == Strays(s)
  {
    hide Exclusive;
    SamePast(s, Next(s, step));
  }

  lemma CancelNewKeeps(s: State, reply: CancelReply)
    requires LedgerInv(s) && s.pc.CancellingNew?
    ensures LedgerInv(Next(s, CancelNew(reply))) && Strays(Next(s, CancelNew(reply))) == Strays(s)
  {
    hide Exclusive;
    CancelKeeps(s, s.pc.group, reply);
    SamePast(Cancel(s, s.pc.group, reply), Next(s, CancelNew(reply)));
  }

  lemma AdmitKeeps(s: State)
    requires LedgerInv(s) && s.pc.Admitting?
    ensures LedgerInv(Next(s, Admit)) && Strays(Next(s, Admit)) == Strays(s)
  {
    hide Exclusive;
    var t := Next(s, Admit);
    SamePast(s, s.(pc := Idle));
    assert forall j :: Mapped(t, j) <==> Mapped(s, j);
    assert Strays(t) == Strays(s);
  }

  lemma RemoveKeeps(s: State, g: Group)
    requires LedgerInv(s)
    ensures LedgerInv(Remove(s, g)) && Strays(Remove(s, g)) == Strays(s)
  {
    hide Exclusive;
    var t := Remove(s, g);
    assert forall j :: Mapped(t, j) <==> Mapped(s, j);
    assert Strays(t) == Strays(s);
  }

  lemma {:induction false} LedgerAlways(steps: seq<Step>)
    requires Possible(steps)
    ensures LedgerInv(Run(steps))
  {
    if steps == [] {
      assert Strays(START) == {};
    } else {
      LedgerAlways(steps[..|steps| - 1]);
      StepKeepsLedger(Run(steps[..|steps| - 1]), steps[|steps| - 1]);
    }
  }

  /** Over every interleaving: each job in the map is live, no two groups share one, none is successfully
      cancelled twice, and live jobs missing from the map number at most one in-flight match plus the
      cancels that failed. Each core is held by one live job at most. */
  lemma LedgerIsSafe(steps: seq<Step>)
    requires Possible(steps)
    ensures var s := Run(steps);
            && (forall g :: g in s.jobOf ==> s.jobOf[g] in s.live)
            && (forall g, h :: g in s.jobOf && h in s.jobOf && g != h ==> s.jobOf[g] != s.jobOf[h])
            && (forall j :: j in s.cancelled ==> s.cancelled[j] == 1 && j !in s.live)
            && |set j | j in s.live && !Mapped(s, j)| <= s.failed + (if s.pc.Storing? then 1 else 0)
            && Exclusive(s.live)
  {
    hide Exclusive;
    var s := Run(steps);
    LedgerAlways(steps);
    var missing := set j | j in s.live && !Mapped(s, j);
    if s.pc.Storing? {
      FewerThan(missing, Strays(s) + {s.pc.job});
    } else {
      FewerThan(missing, Strays(s));
    }
  }

  /** With no failed cancel the ledger is exact. */
  lemma LedgerIsExact(steps: seq<Step>, j: JobId)
    requires Possible(steps) && Run(steps).failed == 0
    ensures j in Run(steps).live <==> Mapped(Run(steps), j) || InFlight(Run(steps), j)
  {
    hide Exclusive;
    LedgerAlways(steps);
    var s := Run(steps);
    assert |Strays(s)| == 0;
    assert j !in Strays(s);
  }

  // ---- When the ledger is exact ----

  /** The writes of a run that found their group already in the map. */
  function Overwrites(steps: seq<Step>): nat {
    if steps == [] then 0
    else
      var before := steps[..|steps| - 1];
      Overwrites(before) + (if Overwritten(Run(before), steps[|steps| - 1]) == {} then 0 else 1)
  }

  /** The jobs those writes dropped from the map. */
  function Dropped(steps: seq<Step>): set<JobId> {
    if steps == [] then {}
    else
      var before := steps[..|steps| - 1];
      Dropped(before) + Overwritten(Run(before), steps[|steps| - 1])
  }

  /** The live jobs nobody knows are those a write dropped from the map, one for each such write; a failed
      cancel alone makes none. */
  lemma {:induction false} StraysAreDropped(steps: seq<Step>)
    requires Possible(steps)
    ensures Strays(Run(steps)) == Dropped(steps) && |Strays(Run(steps))| == Overwrites(steps)
  {
    hide LedgerInv, Enabled, Next, Overwritten, Strays;
    if steps == [] {
      NoStraysAtStart();
    } else {
      var before, step := steps[..|steps| - 1], steps[|steps| - 1];
      StraysAreDropped(before);
      LedgerAlways(before);
      StepKeepsLedger(Run(before), step);
      OverwrittenOne(Run(before), step);
    }
  }

  lemma NoStraysAtStart()
    ensures Strays(START) == {}
  {
  }

  /** Every live job is in the map or in flight if and only if no write found its group already there. */
  lemma LedgerExactlyWhenNoOverwrite(steps: seq<Step>)
    requires Possible(steps)
    ensures (forall j :: j in Run(steps).live ==> Mapped(Run(steps), j) || InFlight(Run(steps), j))
            <==> Overwrites(steps) == 0
  {
    hide Run, Possible, Overwrites, Dropped, Mapped, InFlight;
    StraysAreDropped(steps);
    var s := Run(steps);
    if forall j :: j in s.live ==> Mapped(s, j) || InFlight(s, j) {
      assert Strays(s) == {};
    } else {
      var j :| j in s.live && !Mapped(s, j) && !InFlight(s, j);
      assert j in Strays(s);
    }
  }

  /** The cores an accepted cancel frees can go straight to the new match. */
  lemma FreedCoresComeBack(steps: seq<Step>, job: JobId, grant: Grant)
    requires Possible(steps)
    requires var s := Run(steps);
             && s.pc.CancellingOld? && s.pc.group in s.jobOf && job !in s.used
             && s.jobOf[s.pc.group] in s.live && grant.cores <= s.live[s.jobOf[s.pc.group]].cores
    ensures Enabled(Next(Run(steps), CancelOld(Accepted)), Match(job, grant))
  {
    hide Run, Possible;
    LedgerIsSafe(steps);
  }

  // ---- Admission windows ----

  predicate Undecided(s: State, g: Group) {
    (s.pc.Storing? || s.pc.Sizing? || s.pc.CancellingNew? || s.pc.Admitting?) && s.pc.group == g
  }

  /** Successful matches of a group are its removals from the permitted set, plus its standing entry,
      plus a match still on its way there. */
  ghost predicate WindowInv(s: State, g: Group) {
    && (!s.pc.Idle? ==> s.pc.group !in s.permitted)
    && s.matches[g] == s.removals[g] + (if g in s.permitted then 1 else 0) + (if Undecided(s, g) then 1 else 0)
  }

  lemma {:induction false} WindowsAlways(steps: seq<Step>, g: Group)
    requires Possible(steps)
    ensures WindowInv(Run(steps), g)
  {
    if steps != [] {
      WindowsAlways(steps[..|steps| - 1], g);
      var s := Run(steps[..|steps| - 1]);
      StepKeepsWindow(s, steps[|steps| - 1], g);
    }
  }

  lemma StepKeepsWindow(s: State, step: Step, g: Group)
    requires WindowInv(s, g) && Enabled(s, step)
    ensures WindowInv(Next(s, step), g)
  {
    hide Cancel, FreesResources, FullName;
    match step
    case CancelOld(reply) => CancelLeavesWindow(s, s.pc.group, reply);
    case CancelNew(reply) => CancelLeavesWindow(s, s.pc.group, reply);
    case Informer(pod, groupFound, _, reply) => CancelLeavesWindow(s, EventGroup(pod, groupFound), reply);
    case _ =>
  }

  lemma CancelLeavesWindow(s: State, g: Group, reply: CancelReply)
    ensures var t := Cancel(s, g, reply);
            t.pc == s.pc && t.permitted == s.permitted && t.matches == s.matches && t.removals == s.removals
  {
  }

  /** In any run, a group's successful matches are at most one more than the deletions and expiries of its
      permitted entry; while the entry stands, the scheduling thread does not ask again. */
  lemma AdmissionWindows(steps: seq<Step>, g: Group)
    requires Possible(steps)
    ensures var s := Run(steps);
            && s.matches[g] <= s.removals[g] + 1
            && (s.pc.Idle? ==> s.matches[g] == s.removals[g] + (if g in s.permitted then 1 else 0))
            && (g in s.permitted ==> s.pc.Idle? || s.pc.group != g)
  {
    WindowsAlways(steps, g);
  }

  /** An entry of the permitted set appears when the scheduling thread admits its group and goes when it is
      deleted or expires; nothing else touches it, and without it the group can be asked for again. */
  lemma PermittedChangesExactly(s: State, step: Step, g: Group)
    requires Enabled(s, step)
    ensures g in Next(s, step).permitted
            <==> (g in s.permitted && step != DropPermit(g) && step != Expire(g))
                 || (step == Admit && s.pc.group == g)
    ensures forall ns, groupLabel :: s.pc.Idle? && groupLabel != "" && g == FullName(ns, groupLabel) ==>
              step == DropPermit(g) || step == Expire(g) ==> Enabled(Next(s, step), Begin(ns, groupLabel))
  {
  }

  // ---- Which events reach the ledger ----

  ghost predicate KeysAreFullNames(s: State) {
    && (forall g :: g in s.jobOf ==> '/' in g)
    && (!s.pc.Idle? ==> '/' in s.pc.group)
  }

  lemma {:induction false} KeysAlwaysFullNames(steps: seq<Step>)
    requires Possible(steps)
    ensures KeysAreFullNames(Run(steps))
  {
    if steps != [] {
      KeysAlwaysFullNames(steps[..|steps| - 1]);
      StepKeepsKeys(Run(steps[..|steps| - 1]), steps[|steps| - 1]);
    }
  }

  lemma StepKeepsKeys(s: State, step: Step)
    requires KeysAreFullNames(s) && Enabled(s, step)
    ensures KeysAreFullNames(Next(s, step))
  {
  }

  /** In every reachable state, an event takes a group's job from the ledger exactly when the PodGroup is
      found, the pod carries the group's label, the event is one that frees and Fluxion accepts the cancel. */
  lemma EventFreesExactly(steps: seq<Step>, g: Group, pod: PodKey, groupFound: bool, event: PodEvent, reply: CancelReply)
    requires Possible(steps) && g in Run(steps).jobOf
    requires '/' !in pod.namespace && '/' !in pod.name
    ensures g !in Next(Run(steps), Informer(pod, groupFound, event, reply)).jobOf
            <==> groupFound && pod.groupLabel != "" && FullName(pod.namespace, pod.groupLabel) == g
                 && event in {Updated(Succeeded), Updated(Failed), Deleted(Pending), Deleted(Running)}
                 && reply == Accepted
  {
    hide FakeGroup, FullName, Run, Possible;
    KeysAlwaysFullNames(steps);
    FakeGroupPlain(pod);
  }

  /** No other event changes anything: a pod that starts, a deleted pod that had already succeeded. */
  lemma OtherEventsDoNothing(s: State, pod: PodKey, groupFound: bool, event: PodEvent, reply: CancelReply)
    requires event in {Updated(Pending), Updated(Running), Updated(Unknown),
                       Deleted(Succeeded), Deleted(Failed), Deleted(Unknown)}
    ensures Next(s, Informer(pod, groupFound, event, reply)) == s
  {
  }

  /** Events of a pod whose PodGroup object is already gone change nothing at all: a job not cancelled
      before its group was deleted stays. */
  lemma OrphanEventsDoNothing(steps: seq<Step>, pod: PodKey, event: PodEvent, reply: CancelReply)
    requires Possible(steps)
    requires '/' !in pod.namespace && '/' !in pod.name
    ensures Next(Run(steps), Informer(pod, false, event, reply)) == Run(steps)
  {
    KeysAlwaysFullNames(steps);
    FakeGroupPlain(pod);
  }

  lemma FakeGroupPlain(pod: PodKey)
    requires '/' !in pod.namespace && '/' !in pod.name
    ensures '/' !in FakeGroup(pod)
  {
  }

  // ---- The bound is met ----

  lemma Extend(steps: seq<Step>, step: Step)
    requires Possible(steps) && Enabled(Run(steps), step)
    ensures Possible(steps + [step]) && Run(steps + [step]) == Next(Run(steps), step)
  {
    assert (steps + [step])[..|steps|] == steps;
  }

  /** The steps that admit a group with no job, undisturbed; a job of the wrong size is cancelled. */
  function Admission(ns: string, groupLabel: string, job: JobId, grant: Grant, fits: bool): seq<Step> {
    [Begin(ns, groupLabel), Look, Match(job, grant), Store, Size(fits)]
    + (if fits then [] else [CancelNew(Accepted)]) + [Admit]
  }

  /** What such an admission makes of a state. */
  function Admitted(s: State, g: Group, job: JobId, grant: Grant, fits: bool): State {
    State(if fits then s.jobOf[g := job] else s.jobOf,
          if fits then s.live[job := grant] else s.live,
          s.permitted + {g}, Idle, s.used + {job},
          if fits then s.cancelled else s.cancelled + multiset{job}, s.failed, s.matches + multiset{g}, s.removals)
  }

  /** The first match of a group that has no job, written down. */
  lemma MatchedRun(steps: seq<Step>, ns: string, groupLabel: string, job: JobId, grant: Grant)
    requires Possible(steps) && Run(steps).pc.Idle? && groupLabel != ""
    requires FullName(ns, groupLabel) !in Run(steps).jobOf && FullName(ns, groupLabel) !in Run(steps).permitted
    requires job !in Run(steps).used && forall j :: j in Run(steps).live ==> Run(steps).live[j].cores !! grant.cores
    ensures var t := steps + [Begin(ns, groupLabel)] + [Look] + [Match(job, grant)] + [Store];
            var s, g := Run(steps), FullName(ns, groupLabel);
            && Possible(t)
            && Run(t) == s.(pc := Sizing(g), jobOf := s.jobOf[g := job], live := s.live[job := grant],
                            used := s.used + {job}, matches := s.matches + multiset{g})
  {
    hide Run, Possible, FullName;
    Extend(steps, Begin(ns, groupLabel));
    var t := steps + [Begin(ns, groupLabel)];
    Extend(t, Look);
    Extend(t + [Look], Match(job, grant));
    Extend(t + [Look] + [Match(job, grant)], Store);
  }

  /** An accepted cancel of a job just written down leaves the map and the live jobs as they were. */
  lemma CancelUndoes(t: State, s: State, g: Group, job: JobId, grant: Grant)
    requires g !in s.jobOf && job !in s.live
    requires t.jobOf == s.jobOf[g := job] && t.live == s.live[job := grant]
    ensures Cancel(t, g, Accepted) == t.(jobOf := s.jobOf, live := s.live, cancelled := t.cancelled + multiset{job})
  {
    assert s.jobOf[g := job] - {g} == s.jobOf && s.live[job := grant] - {job} == s.live;
  }

  lemma AdmissionRun(steps: seq<Step>, ns: string, groupLabel: string, job: JobId, grant: Grant, fits: bool)
    requires Possible(steps) && Run(steps).pc.Idle? && groupLabel != ""
    requires FullName(ns, groupLabel) !in Run(steps).jobOf && FullName(ns, groupLabel) !in Run(steps).permitted
    requires job !in Run(steps).used && job !in Run(steps).live
    requires forall j :: j in Run(steps).live ==> Run(steps).live[j].cores !! grant.cores
    ensures var t := steps + Admission(ns, groupLabel, job, grant, fits);
            Possible(t) && Run(t) == Admitted(Run(steps), FullName(ns, groupLabel), job, grant, fits)
  {
    hide Run, Possible, FullName, Cancel;
    var g, s := FullName(ns, groupLabel), Run(steps);
    MatchedRun(steps, ns, groupLabel, job, grant);
    var t := steps + [Begin(ns, groupLabel)] + [Look] + [Match(job, grant)] + [Store];
    var u := t + [Size(fits)];
    Extend(t, Size(fits));
    if !fits {
      Extend(u, CancelNew(Accepted));
      CancelUndoes(Run(u), s, g, job, grant);
      u := u + [CancelNew(Accepted)];
    }
    Extend(u, Admit);
    assert u + [Admit] == steps + Admission(ns, groupLabel, job, grant, fits);
  }

  lemma StartRun()
    ensures Possible([]) && Run([]) == START
  {
  }

  /** A first match for group g, written down and admitted. */
  lemma AdmittedRun(g: Group, ns: string, groupLabel: string, grant: Grant) returns (steps: seq<Step>)
    requires g == FullName(ns, groupLabel) && groupLabel != ""
    ensures Possible(steps)
    ensures Run(steps) == State(map[g := 1], map[1 := grant], {g}, Idle, {1}, multiset{}, 0, multiset{g}, multiset{})
  {
    hide Run, Possible, FullName;
    StartRun();
    AdmissionRun([], ns, groupLabel, 1, grant, true);
    steps := [] + Admission(ns, groupLabel, 1, grant, true);
  }

  /** The entry expires, the group asks again and the cancel of its old job fails: nothing is lost yet. */
  lemma FailedCancelRun(g: Group, ns: string, groupLabel: string) returns (steps: seq<Step>)
    requires g == FullName(ns, groupLabel) && groupLabel != ""
    ensures Possible(steps)
    ensures Run(steps) == State(map[g := 1], map[1 := Grant({}, [])], {}, Matching(g), {1}, multiset{}, 1,
                                multiset{g}, multiset{g})
  {
    hide Run, Possible, FullName;
    steps := AdmittedRun(g, ns, groupLabel, Grant({}, []));
    Extend(steps, Expire(g));
    steps := steps + [Expire(g)];
    Extend(steps, Begin(ns, groupLabel));
    steps := steps + [Begin(ns, groupLabel)];
    Extend(steps, Look);
    steps := steps + [Look];
    Extend(steps, CancelOld(CallFailed));
    steps := steps + [CancelOld(CallFailed)];
  }

  /** The new match then overwrites the entry: one failed cancel, one live job that nobody knows. */
  lemma FailedCancelLeaks(ns: string, groupLabel: string) returns (steps: seq<Step>)
    requires groupLabel != ""
    ensures Possible(steps) && Run(steps).failed == 1 && Strays(Run(steps)) == {1}
  {
    hide Run, Possible, Exclusive, FullName;
    var g := FullName(ns, groupLabel);
    steps := FailedCancelRun(g, ns, groupLabel);
    Extend(steps, Match(2, Grant({}, [])));
    steps := steps + [Match(2, Grant({}, []))];
    Extend(steps, Store);
    steps := steps + [Store];
    assert Run(steps).jobOf == map[g := 2];
    MappedBy(Run(steps), g);
  }
}
