/** The admission webhook: group name and size labels on a Job and on a Pod, and what becomes of the size. */
module Webhook {
  import Controller
  import opened Decimal
  import opened GoInt
  import opened Wrappers

  const GROUP_LABEL := "scheduling.x-k8s.io/pod-group"
  const SIZE_LABEL := "fluence.group-size"

  type Labels = map<string, string>

  /** Looked up on the Job first, then on the pod template. */
  function JobLabel(labels: Labels, template: Labels, name: string, fallback: string): string {
    if name in labels then labels[name]
    else if name in template then template[name]
    else fallback
  }

  function JobSize(parallelism: int): int {
    if parallelism == 0 then 1 else parallelism
  }

  /** The template's labels once the Job has passed the webhook. */
  function JobTemplate(namespace: string, name: string, labels: Labels, template: Labels, parallelism: int): Labels {
    var group := JobLabel(labels, template, GROUP_LABEL, "fluence-group-" + namespace + "-" + name);
    var named := template[GROUP_LABEL := group];
    named[SIZE_LABEL := JobLabel(labels, named, SIZE_LABEL, Print(JobSize(parallelism)))]
  }

  function PodLabels(name: string, labels: Labels): Labels {
    var named := if GROUP_LABEL in labels then labels else labels[GROUP_LABEL := "fluence-group-" + name];
    if SIZE_LABEL in named then named else named[SIZE_LABEL := "1"]
  }

  /** A batch Job; a nil label map is the empty one. */
  class Job {
    const namespace: string
    const name: string
    const parallelism: int
    var labels: Labels
    var template: Labels

    constructor (namespace: string, name: string, parallelism: int, labels: Labels, template: Labels)
      ensures this.namespace == namespace && this.name == name && this.parallelism == parallelism
      ensures this.labels == labels && this.template == template
    {
      this.namespace, this.name, this.parallelism := namespace, name, parallelism;
      this.labels, this.template := labels, template;
    }

    method EnsureGroupOnJob()
      modifies this`template
      ensures template == JobTemplate(namespace, name, labels, old(template), parallelism)
    {
      var defaultName := "fluence-group-" + namespace + "-" + name;
      var groupName := JobLabel(labels, template, GROUP_LABEL, defaultName);
      template := template[GROUP_LABEL := groupName];
      var jobSize := parallelism;
      if jobSize == 0 {
        jobSize := 1;
      }
      var labelSize := Print(jobSize);
      var groupSize := JobLabel(labels, template, SIZE_LABEL, labelSize);
      template := template[SIZE_LABEL := groupSize];
    }
  }

  class Pod {
    const name: string
    var labels: Labels

    constructor (name: string, labels: Labels)
      ensures this.name == name && this.labels == labels
    {
      this.name, this.labels := name, labels;
    }

    method EnsureGroup()
      modifies this`labels
      ensures labels == PodLabels(name, old(labels))
    {
      if GROUP_LABEL !in labels {
        labels := labels[GROUP_LABEL := "fluence-group-" + name];
      }
      if SIZE_LABEL !in labels {
        labels := labels[SIZE_LABEL := "1"];
      }
    }
  }

  lemma LabelsDiffer()
    ensures GROUP_LABEL != SIZE_LABEL
  {
  }

  /** A pod made from the template of an admitted Job carries both labels, so the pod hook changes nothing. */
  lemma PodHookLeavesTemplate(namespace: string, name: string, labels: Labels, template: Labels, parallelism: int,
                              podName: string, podLabels: Labels)
    requires var t := JobTemplate(namespace, name, labels, template, parallelism);
             t.Keys <= podLabels.Keys && forall k :: k in t ==> podLabels[k] == t[k]
    ensures PodLabels(podName, podLabels) == podLabels
  {
    LabelsDiffer();
  }

  /** The size label the template ends with: the Job's, else the template's, else the printed parallelism. */
  lemma TemplateSizeLabel(namespace: string, name: string, labels: Labels, template: Labels, parallelism: int)
    ensures var t := JobTemplate(namespace, name, labels, template, parallelism);
            && SIZE_LABEL in t
            && t[SIZE_LABEL] == (if SIZE_LABEL in labels then labels[SIZE_LABEL]
                                 else if SIZE_LABEL in template then template[SIZE_LABEL]
                                 else Print(JobSize(parallelism)))
  {
    LabelsDiffer();
  }

  /** Other labels of the template are kept, and an existing group name of the template survives unless the
      Job names another. */
  lemma TemplateOtherLabels(namespace: string, name: string, labels: Labels, template: Labels, parallelism: int)
    ensures var t := JobTemplate(namespace, name, labels, template, parallelism);
            && (forall k :: k != GROUP_LABEL && k != SIZE_LABEL ==>
                  (k in t <==> k in template) && (k in t ==> t[k] == template[k]))
            && (GROUP_LABEL !in labels && GROUP_LABEL in template ==> t[GROUP_LABEL] == template[GROUP_LABEL])
            && (GROUP_LABEL in labels ==> t[GROUP_LABEL] == labels[GROUP_LABEL])
            && (GROUP_LABEL !in labels && GROUP_LABEL !in template ==>
                  t[GROUP_LABEL] == "fluence-group-" + namespace + "-" + name)
  {
    LabelsDiffer();
  }

  /** Each label the pod lacks is filled in on its own: the name made from the pod's, the size 1. Labels
      already there, these two included, are kept. */
  lemma PodLabelsFilledIn(name: string, labels: Labels, key: string)
    ensures var t := PodLabels(name, labels);
            && (key in labels ==> key in t && t[key] == labels[key])
            && (key !in labels ==> (key in t <==> key == GROUP_LABEL || key == SIZE_LABEL))
            && (GROUP_LABEL !in labels ==> t[GROUP_LABEL] == "fluence-group-" + name)
            && (SIZE_LABEL !in labels ==> t[SIZE_LABEL] == "1")
  {
    LabelsDiffer();
  }

  function SizeLabelOf(labels: Labels): string {
    if SIZE_LABEL in labels then labels[SIZE_LABEL] else ""
  }

  /** The pods of an admitted Job, as the controller lists them: the first carries the template's size label. */
  ghost predicate FirstPodOf(pods: seq<Controller.Pod>, template: Labels) {
    pods != [] && pods[0].sizeLabel == SizeLabelOf(template)
  }

  /** Size round trip. With no size label anywhere, the second reconcile sets MinMember to the Job's
      parallelism, or 1 for 0; with a size label that parses, to that number, the Job's label winning. */
  lemma SizeReachesMinMember(namespace: string, name: string, labels: Labels, template: Labels, parallelism: int,
                             pods: seq<Controller.Pod>, timestamp: Controller.Time)
    requires 0 <= parallelism <= INT32_MAX
    requires FirstPodOf(pods, JobTemplate(namespace, name, labels, template, parallelism))
    requires Controller.EffectiveTime(pods, timestamp) != Controller.ZERO_TIME
    ensures var (g, _) := Controller.AfterCalls(Controller.FRESH, pods, timestamp, 2);
            && (SIZE_LABEL !in labels && SIZE_LABEL !in template ==>
                  g.minMember == if parallelism == 0 then 1 else parallelism)
            && (SIZE_LABEL in labels && ParseInt32(labels[SIZE_LABEL]).Some? ==>
                  g.minMember == ParseInt32(labels[SIZE_LABEL]).value)
            && (SIZE_LABEL !in labels && SIZE_LABEL in template && ParseInt32(template[SIZE_LABEL]).Some? ==>
                  g.minMember == ParseInt32(template[SIZE_LABEL]).value)
  {
    hide JobTemplate, ParseInt32, Print;
    TemplateSizeLabel(namespace, name, labels, template, parallelism);
    TwoCalls(pods, timestamp);
    ParsePrint(JobSize(parallelism));
  }

  /** The same for a pod of its own: without a size label its group gets MinMember 1, with one that parses
      that number. */
  lemma BarePodIsGroupOfOne(name: string, labels: Labels, pods: seq<Controller.Pod>, timestamp: Controller.Time)
    requires FirstPodOf(pods, PodLabels(name, labels))
    requires Controller.EffectiveTime(pods, timestamp) != Controller.ZERO_TIME
    ensures var (g, _) := Controller.AfterCalls(Controller.FRESH, pods, timestamp, 2);
            && (SIZE_LABEL !in labels ==> g.minMember == 1)
            && (SIZE_LABEL in labels && ParseInt32(labels[SIZE_LABEL]).Some? ==>
                  g.minMember == ParseInt32(labels[SIZE_LABEL]).value)
  {
    hide PodLabels, ParseInt32, Print;
    PodLabelsFilledIn(name, labels, SIZE_LABEL);
    TwoCalls(pods, timestamp);
    PrintOne();
    ParsePrint(1);
  }

  lemma PrintOne()
    ensures Print(1) == "1"
  {
  }

  /** The first two reconciles of a fresh group: its time, then its size. */
  lemma TwoCalls(pods: seq<Controller.Pod>, timestamp: Controller.Time)
    requires Controller.EffectiveTime(pods, timestamp) != Controller.ZERO_TIME
    ensures Controller.AfterCalls(Controller.FRESH, pods, timestamp, 2).0.minMember == Controller.EffectiveSize(pods)
    ensures Controller.AfterCalls(Controller.FRESH, pods, timestamp, 2).1 == Controller.Requeue
  {
    hide Controller.EffectiveSize, Controller.EffectiveTime;
    assert Controller.AfterCalls(Controller.FRESH, pods, timestamp, 0) == (Controller.FRESH, Controller.Requeue);
    assert Controller.AfterCalls(Controller.FRESH, pods, timestamp, 1)
        == Controller.Reconciled(Controller.FRESH, pods, timestamp, false);
  }
}
