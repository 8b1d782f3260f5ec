/** The pod group manager: the object whose maps the scheduling thread and the pod informer share. */
module Manager {
  import opened Assignment
  import opened Capacity
  import opened Ledger
  import opened Wrappers

  /** One informer callback, with Fluxion's reply should it try to cancel, and the pods that a cleanup
      would then drop from the node lookup. */
  datatype Callback = Callback(
    pod: PodKey,
    groupFound: bool,
    event: PodEvent,
    reply: CancelReply,
    cleaned: set<string>)

  function StepOf(c: Callback): Step {
    Informer(c.pod, c.groupFound, c.event, c.reply)
  }

  function StepsOf(cs: seq<Callback>): seq<Step> {
    seq(|cs|, i requires 0 <= i < |cs| => StepOf(cs[i]))
  }

  datatype MatchReply = NoMatch(error: string) | Matched(job: JobId, grant: Grant, nodes: seq<string>)

  /** What the outside world does during one PreFilter: the callbacks that run whenever the mutex is free
      (before the lookup, after it, before the match, before the write, and before the size
      is looked at), and the replies. */
  datatype World = World(
    beforeLook: seq<Callback>,
    afterLook: seq<Callback>,
    beforeMatch: seq<Callback>,
    beforeStore: seq<Callback>,
    beforeSize: seq<Callback>,
    oldReply: CancelReply,
    newReply: CancelReply,
    oldCleaned: set<string>,
    newCleaned: set<string>,
    answer: MatchReply)

  /** The steps of AskFlux up to the old job's cancel, among those of the informer, after the steps t. */
  function BeforeCancel(t: seq<Step>, ns: string, groupLabel: string, w: World): seq<Step> {
    t + [Begin(ns, groupLabel)] + StepsOf(w.beforeLook) + [Look] + StepsOf(w.afterLook)
  }

  /** The same up to the point where Fluxion is asked for a match. */
  function BeforeMatch(t: seq<Step>, ns: string, groupLabel: string, w: World): seq<Step> {
    var looked := BeforeCancel(t, ns, groupLabel, w);
    (if Run(looked).pc.CancellingOld? then looked + [CancelOld(w.oldReply)] else looked) + StepsOf(w.beforeMatch)
  }

  function AskTrace(t: seq<Step>, ns: string, groupLabel: string, w: World): seq<Step> {
    var ready := BeforeMatch(t, ns, groupLabel, w);
    match w.answer
    case NoMatch(_) => ready + [MatchFails]
    case Matched(job, grant, _) => ready + [Match(job, grant)] + StepsOf(w.beforeStore) + [Store]
  }

  /** The steps of a whole PreFilter that asks Fluxion. */
  function PreFilterTrace(t: seq<Step>, ns: string, groupLabel: string, pods: seq<string>, w: World): seq<Step> {
    var asked := AskTrace(t, ns, groupLabel, w);
    match w.answer
    case NoMatch(_) => asked
    case Matched(_, _, nodes) =>
      PlaceTrace(asked, pods, nodes, w)
  }

  function PlaceTrace(t: seq<Step>, pods: seq<string>, nodes: seq<string>, w: World): seq<Step> {
    var fits := |nodes| == |pods|;
    t + StepsOf(w.beforeSize) + [Size(fits)] + (if fits then [] else [CancelNew(w.newReply)]) + [Admit]
  }

  /** Fluxion's part: a job id never used before, and cores no live job holds. */
  ghost predicate FreshAnswer(s: State, answer: MatchReply) {
    answer.Matched? ==> answer.job !in s.used && forall j :: j in s.live ==> s.live[j].cores !! answer.grant.cores
  }

  /** Fluxion's answer to AskFlux is fresh in the state it is asked in: the cores of an old job just cancelled
      can be given out again. */
  ghost predicate FreshReply(t: seq<Step>, ns: string, groupLabel: string, w: World) {
    FreshAnswer(Run(BeforeMatch(t, ns, groupLabel, w)), w.answer)
  }

  /** What the informer leaves alone. */
  ghost predicate SamePlace(s: State, t: State) {
    t.pc == s.pc && t.permitted == s.permitted
  }

  /** No callback comes in between, and no cleanup drops a pod. */
  predicate Quiet(w: World) {
    && w.beforeLook == [] && w.afterLook == [] && w.beforeMatch == [] && w.beforeStore == [] && w.beforeSize == []
    && w.oldCleaned == {} && w.newCleaned == {}
  }

  class PodGroupManager {
    var groupToJobId: map<Group, JobId>
    var podToNode: map<string, string>
    var permitted: set<Group>
    ghost var trace: seq<Step>

    /** The fields are what the steps so far have made of them. */
    ghost predicate Valid()
      reads this
    {
      && Possible(trace)
      && Run(trace).jobOf == groupToJobId
      && Run(trace).permitted == permitted
    }

    constructor ()
      ensures Valid() && trace == [] && podToNode == map[]
    {
      groupToJobId, podToNode, permitted, trace := map[], map[], {}, [];
    }

    /** Runs with the mutex held. Only an accepted cancel forgets the job. */
    method CancelFluxJob(g: Group, reply: CancelReply, cleaned: set<string>) returns (err: bool)
      modifies this`groupToJobId, this`podToNode
      ensures var done := g in old(groupToJobId) && reply == Accepted;
              && groupToJobId == (if done then old(groupToJobId) - {g} else old(groupToJobId))
              && podToNode == (if done then old(podToNode) - cleaned else old(podToNode))
      ensures err <==> g in old(groupToJobId) && (reply == DialFailed || reply == CallFailed)
    {
      if g !in groupToJobId {
        return false;
      }
      if reply == DialFailed {
        return true;
      }
      if reply == CallFailed {
        return true;
      }
      if reply == Accepted {
        Cleanup(g, cleaned);
      }
      err := false;
    }

    method Cleanup(g: Group, cleaned: set<string>)
      modifies this`groupToJobId, this`podToNode
      ensures groupToJobId == old(groupToJobId) - {g} && podToNode == old(podToNode) - cleaned
    {
      groupToJobId := groupToJobId - {g};
      podToNode := podToNode - cleaned;
    }

    method UpdatePod(c: Callback)
      requires Valid() && c.event.Updated?
      modifies this
      ensures Valid() && trace == old(trace) + [StepOf(c)]
      ensures var g := EventGroup(c.pod, c.groupFound);
              var freed := (c.event.newPhase == Succeeded || c.event.newPhase == Failed)
                           && g in old(groupToJobId) && c.reply == Accepted;
              && groupToJobId == (if freed then old(groupToJobId) - {g} else old(groupToJobId))
              && podToNode == (if freed then old(podToNode) - c.cleaned else old(podToNode))
    {
      hide Run, Possible, EventGroup;
      var groupName := EventGroup(c.pod, c.groupFound);
      match c.event.newPhase {
        case Succeeded =>
          if groupName in groupToJobId {
            var _ := CancelFluxJob(groupName, c.reply, c.cleaned);
          }
        case Failed =>
          if groupName in groupToJobId {
            var _ := CancelFluxJob(groupName, c.reply, c.cleaned);
          }
        case Pending =>
        case Running =>
        case Unknown =>
      }
      Note(StepOf(c));
    }

    method DeletePod(c: Callback)
      requires Valid() && c.event.Deleted?
      modifies this
      ensures Valid() && trace == old(trace) + [StepOf(c)]
      ensures var g := EventGroup(c.pod, c.groupFound);
              var freed := (c.event.phase == Pending || c.event.phase == Running)
                           && g in old(groupToJobId) && c.reply == Accepted;
              && groupToJobId == (if freed then old(groupToJobId) - {g} else old(groupToJobId))
              && podToNode == (if freed then old(podToNode) - c.cleaned else old(podToNode))
    {
      hide Run, Possible, EventGroup;
      var groupName := EventGroup(c.pod, c.groupFound);
      match c.event.phase {
        case Succeeded =>
        case Pending =>
          if groupName in groupToJobId {
            var _ := CancelFluxJob(groupName, c.reply, c.cleaned);
          }
        case Running =>
          if groupName in groupToJobId {
            var _ := CancelFluxJob(groupName, c.reply, c.cleaned);
          }
        case Failed =>
        case Unknown =>
      }
      Note(StepOf(c));
    }

    /** Records the step just taken. */
    ghost method Note(step: Step)
      requires Possible(trace) && Enabled(Run(trace), step)
      requires Next(Run(trace), step).jobOf == groupToJobId && Next(Run(trace), step).permitted == permitted
      modifies this`trace
      ensures Valid() && trace == old(trace) + [step] && Run(trace) == Next(Run(old(trace)), step)
    {
      Extend(trace, step);
      trace := trace + [step];
    }

    /** The informer gets the mutex any number of times. */
    method InformerRuns(cs: seq<Callback>)
      requires Valid()
      modifies this
      ensures Valid() && trace == old(trace) + StepsOf(cs)
      ensures SamePlace(Run(old(trace)), Run(trace))
      ensures cs == [] ==> groupToJobId == old(groupToJobId) && podToNode == old(podToNode)
    {
      hide Run, Possible;
      for i := 0 to |cs|
        invariant Valid() && trace == old(trace) + StepsOf(cs[..i])
        invariant SamePlace(Run(old(trace)), Run(trace))
        invariant i == 0 ==> groupToJobId == old(groupToJobId) && podToNode == old(podToNode)
      {
        ghost var t := trace;
        Extend(t, StepOf(cs[i]));
        match cs[i].event {
          case Updated(_) => UpdatePod(cs[i]);
          case Deleted(_) => DeletePod(cs[i]);
        }
        assert StepsOf(cs[..i + 1]) == StepsOf(cs[..i]) + [StepOf(cs[i])];
      }
      assert cs[..|cs|] == cs;
    }

    /** The first half of AskFlux: a job the group still holds is cancelled. */
    method CancelPrevious(ns: string, groupLabel: string, w: World)
      requires Valid() && Enabled(Run(trace), Begin(ns, groupLabel))
      modifies this
      ensures Valid() && trace == BeforeMatch(old(trace), ns, groupLabel, w)
      ensures Run(trace).pc == Matching(FullName(ns, groupLabel))
      ensures Quiet(w) ==> podToNode == old(podToNode)
    {
      hide Run, Possible, StepsOf, FullName;
      var groupName := FullName(ns, groupLabel);
      Note(Begin(ns, groupLabel));
      InformerRuns(w.beforeLook);
      var isAllocated := groupName in groupToJobId;
      Note(Look);
      InformerRuns(w.afterLook);
      if isAllocated {
        var _ := CancelFluxJob(groupName, w.oldReply, w.oldCleaned);
        Note(CancelOld(w.oldReply));
      }
      InformerRuns(w.beforeMatch);
    }

    method AskFlux(ns: string, groupLabel: string, w: World) returns (r: Result<seq<string>>)
      requires Valid() && Enabled(Run(trace), Begin(ns, groupLabel))
      requires FreshReply(trace, ns, groupLabel, w)
      modifies this
      ensures Valid() && trace == AskTrace(old(trace), ns, groupLabel, w)
      ensures r == match w.answer
                   case NoMatch(error) => Err(error)
                   case Matched(_, _, nodes) => Ok(nodes)
      ensures Run(trace).pc == if r.Ok? then Sizing(FullName(ns, groupLabel)) else Idle
      ensures r.Ok? ==> FullName(ns, groupLabel) in groupToJobId
                        && groupToJobId[FullName(ns, groupLabel)] == w.answer.job
      ensures Quiet(w) ==> podToNode == old(podToNode)
    {
      hide Run, Possible, BeforeMatch, StepsOf, FullName;
      var groupName := FullName(ns, groupLabel);
      CancelPrevious(ns, groupLabel, w);
      match w.answer
      case NoMatch(error) =>
        Note(MatchFails);
        r := Err(error);
      case Matched(job, grant, nodes) =>
        Note(Match(job, grant));
        InformerRuns(w.beforeStore);
        groupToJobId := groupToJobId[groupName := job];
        Note(Store);
        r := Ok(nodes);
    }

    /** Asks Fluxion once per admission, and assigns nodes to the group's pods in list order. When the sizes
        differ the job is cancelled, yet the nodes are written and the group admitted all the same: with no
        callback in between, a job backs the nodes exactly when the sizes agree or the cancel did not go
        through. */
    method PreFilter(ns: string, groupLabel: string, minMember: int, pods: seq<string>, w: World)
      returns (r: Result<()>)
      requires Valid() && Run(trace).pc.Idle? && groupLabel != ""
      requires |pods| >= minMember && FullName(ns, groupLabel) !in permitted ==> FreshReply(trace, ns, groupLabel, w)
      requires |pods| >= 1
      requires w.answer.Matched? && |pods| >= minMember ==> |w.answer.nodes| <= |pods|
      modifies this
      ensures Valid() && Run(trace).pc.Idle?
      ensures |pods| < minMember || FullName(ns, groupLabel) in old(permitted) ==>
                trace == old(trace) && podToNode == old(podToNode) && (r.Ok? <==> |pods| >= minMember)
      ensures |pods| >= minMember && FullName(ns, groupLabel) !in old(permitted) ==>
                && trace == PreFilterTrace(old(trace), ns, groupLabel, pods, w)
                && (r.Ok? <==> w.answer.Matched?)
      ensures |pods| >= minMember && FullName(ns, groupLabel) !in old(permitted) && w.answer.Matched? ==>
                && FullName(ns, groupLabel) in permitted
                && (AllDifferent(pods) ==> forall i :: 0 <= i < |w.answer.nodes| ==>
                      pods[i] in podToNode && podToNode[pods[i]] == w.answer.nodes[i])
                && (Quiet(w) ==> podToNode == Assigned(old(podToNode), pods, w.answer.nodes))
                && (w.beforeSize == [] ==>
                      (FullName(ns, groupLabel) in groupToJobId
                       <==> |w.answer.nodes| == |pods| || w.newReply != Accepted)
                      && (FullName(ns, groupLabel) in groupToJobId
                          ==> groupToJobId[FullName(ns, groupLabel)] == w.answer.job))
    {
      hide Run, Possible, AskTrace, PlaceTrace, FullName, FreshReply, Quiet;
      var groupName := FullName(ns, groupLabel);
      if |pods| < minMember {
        return Err("cannot find enough sibling pods");
      }
      if groupName in permitted {
        return Ok(());
      }
      var asked := AskFlux(ns, groupLabel, w);
      if asked.Err? {
        return Err(asked.error);
      }
      Place(groupName, pods, asked.value, w);
      r := Ok(());
    }

    /** The rest of PreFilter once nodes are known. */
    method Place(groupName: Group, pods: seq<string>, nodes: seq<string>, w: World)
      requires Valid() && Run(trace).pc == Sizing(groupName)
      requires |nodes| <= |pods|
      modifies this
      ensures Valid() && Run(trace).pc.Idle? && trace == PlaceTrace(old(trace), pods, nodes, w)
      ensures groupName in permitted
      ensures AllDifferent(pods) ==>
                forall i :: 0 <= i < |nodes| ==> pods[i] in podToNode && podToNode[pods[i]] == nodes[i]
      ensures Quiet(w) ==> podToNode == Assigned(old(podToNode), pods, nodes)
      ensures w.beforeSize == [] ==>
                groupToJobId == if |nodes| != |pods| && w.newReply == Accepted
                                then old(groupToJobId) - {groupName} else old(groupToJobId)
    {
      hide Run, Possible, Assigned, AllDifferent, StepsOf;
      CheckSize(groupName, |nodes| == |pods|, w);
      if AllDifferent(pods) {
        AssignedAt(podToNode, pods, nodes);
      }
      AssignNodes(pods, nodes);
      AdmitNow(groupName);
    }

    /** A job with the wrong number of nodes is cancelled. */
    method CheckSize(groupName: Group, fits: bool, w: World)
      requires Valid() && Run(trace).pc == Sizing(groupName)
      modifies this
      ensures Valid() && Run(trace).pc == Admitting(groupName)
      ensures trace == old(trace) + StepsOf(w.beforeSize) + [Size(fits)] + (if fits then [] else [CancelNew(w.newReply)])
      ensures w.beforeSize == [] ==>
                groupToJobId == if !fits && w.newReply == Accepted
                                then old(groupToJobId) - {groupName} else old(groupToJobId)
      ensures Quiet(w) ==> podToNode == old(podToNode)
    {
      hide Run, Possible, StepsOf;
      InformerRuns(w.beforeSize);
      Note(Size(fits));
      if !fits {
        var _ := CancelFluxJob(groupName, w.newReply, w.newCleaned);
        Note(CancelNew(w.newReply));
      }
    }

    method AdmitNow(groupName: Group)
      requires Valid() && Run(trace).pc == Admitting(groupName)
      modifies this`permitted, this`trace
      ensures Valid() && Run(trace).pc.Idle? && trace == old(trace) + [Admit]
      ensures groupName in permitted
    {
      hide Run, Possible;
      permitted := permitted + {groupName};
      Note(Admit);
    }

    method AssignNodes(pods: seq<string>, nodes: seq<string>)
      requires |nodes| <= |pods|
      modifies this`podToNode
      ensures podToNode == Assigned(old(podToNode), pods, nodes)
    {
      for i := 0 to |nodes|
        invariant podToNode == Assigned(old(podToNode), pods, nodes[..i])
      {
        assert nodes[..i + 1][..i] == nodes[..i];
        podToNode := podToNode[pods[i] := nodes[i]];
      }
      assert nodes[..|nodes|] == nodes;
    }

    method GetPodNode(name: string) returns (node: string)
      ensures node == NodeOf(podToNode, name)
    {
      node := if name in podToNode then podToNode[name] else "";
    }

    /** The plugin's PreFilter, which names the one node its pod may run on: a pod with a node skips the
        question; for any other the group's answer decides, and its i-th pod is sent to the i-th node. */
    method FindNode(name: string, ns: string, groupLabel: string, minMember: int, pods: seq<string>, w: World)
      returns (r: Result<string>)
      requires Valid() && Run(trace).pc.Idle? && groupLabel != ""
      requires NodeOf(podToNode, name) == "" && |pods| >= minMember && FullName(ns, groupLabel) !in permitted ==>
                 FreshReply(trace, ns, groupLabel, w)
      requires |pods| >= 1
      requires w.answer.Matched? && |pods| >= minMember ==> |w.answer.nodes| <= |pods|
      modifies this
      ensures Valid() && Run(trace).pc.Idle?
      ensures NodeOf(old(podToNode), name) != "" ==>
                r == Ok(NodeOf(old(podToNode), name)) && trace == old(trace) && podToNode == old(podToNode)
      ensures NodeOf(old(podToNode), name) == "" ==>
                && (r.Ok? <==> |pods| >= minMember && (FullName(ns, groupLabel) in old(permitted) || w.answer.Matched?))
                && (FullName(ns, groupLabel) in old(permitted) ==> trace == old(trace) && (r.Ok? ==> r.value == ""))
                && (FullName(ns, groupLabel) !in old(permitted) && r.Ok? && AllDifferent(pods) ==>
                      forall i :: 0 <= i < |w.answer.nodes| && pods[i] == name ==> r.value == w.answer.nodes[i])
                && (FullName(ns, groupLabel) !in old(permitted) && r.Ok? && Quiet(w) ==>
                      name !in pods[..|w.answer.nodes|] ==> r.value == "")
    {
      hide Run, Possible, FullName, FreshReply, Quiet, PreFilterTrace, Assigned;
      var node := GetPodNode(name);
      if node != "" {
        return Ok(node);
      }
      ghost var was := podToNode;
      var asked := PreFilter(ns, groupLabel, minMember, pods, w);
      if asked.Err? {
        return Err(asked.error);
      }
      if w.answer.Matched? && |w.answer.nodes| <= |pods| && name !in pods[..|w.answer.nodes|] {
        OthersKeepTheirs(was, pods, w.answer.nodes, name);
      }
      node := GetPodNode(name);
      r := Ok(node);
    }

    method DeletePermittedPodGroup(g: Group)
      requires Valid()
      modifies this
      ensures Valid() && trace == old(trace) + [DropPermit(g)] && permitted == old(permitted) - {g}
    {
      permitted := permitted - {g};
      Note(DropPermit(g));
    }
  }

  /** Undisturbed and with no old job, a PreFilter is an admission. */
  lemma QuietPreFilter(t: seq<Step>, ns: string, groupLabel: string, pods: seq<string>, w: World)
    requires Possible(t) && Quiet(w) && w.answer.Matched? && w.newReply == Accepted
    requires Enabled(Run(t), Begin(ns, groupLabel)) && FullName(ns, groupLabel) !in Run(t).jobOf
    ensures PreFilterTrace(t, ns, groupLabel, pods, w)
         == t + Admission(ns, groupLabel, w.answer.job, w.answer.grant, |w.answer.nodes| == |pods|)
    ensures Run(BeforeMatch(t, ns, groupLabel, w)) == Run(t).(pc := Matching(FullName(ns, groupLabel)))
  {
    hide Run, Possible, FullName;
    Extend(t, Begin(ns, groupLabel));
    Extend(t + [Begin(ns, groupLabel)], Look);
    assert StepsOf([]) == [];
    var looked := t + [Begin(ns, groupLabel)] + [Look];
    assert BeforeCancel(t, ns, groupLabel, w) == looked;
    assert Run(looked).pc == Matching(FullName(ns, groupLabel));
    assert BeforeMatch(t, ns, groupLabel, w) == looked;
  }
}
