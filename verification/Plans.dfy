/** From a prompt to a stored bundle: the steps a plan writes, and what dispatch keeps of the prompt. */
module Plans {
  import opened Wrappers
  import opened Text
  import opened Segmenter
  import opened Dispatch
  import opened DispatchRuns
  import opened LoopAuto

  /** `_step_from_segment`, with the segment numbered as `_split_segments` numbers it. */
  function StepOf(index: nat, s: Segment, checksum: string -> string, now: real): Step {
    Step("exec_" + SegmentId(index), SegmentId(index), checksum(s.content), s.content, Queued, "", "", Some(now))
  }

  function PlanSteps(segments: seq<Segment>, checksum: string -> string, now: real): (r: seq<Step>)
    ensures |r| == |segments|
  {
    seq(|segments|, i requires 0 <= i < |segments| => StepOf(i, segments[i], checksum, now))
  }

  /** A plan's steps meet every condition the dispatch and drain results ask for. */
  lemma PlanIsReadyToDrain(segments: seq<Segment>, checksum: string -> string, now: real)
    ensures var steps := PlanSteps(segments, checksum, now);
            && UniqueIds(steps) && NonEmptyIds(steps) && NoneRunning(steps) && Fresh(steps)
            && Remaining(steps) == |segments| && SucceededCount(steps) == 0
            && forall i :: 0 <= i < |steps| ==>
                 && steps[i].content == segments[i].content && steps[i].checksum == checksum(segments[i].content)
                 && steps[i].segmentId == SegmentId(i) && steps[i].stepId == "exec_" + steps[i].segmentId
                 && steps[i].result == "" && steps[i].error == "" && steps[i].updatedAt == Some(now)
  {
    hide PadThree;
    var steps := PlanSteps(segments, checksum, now);
    forall i, j | 0 <= i < j < |steps|
      ensures steps[i].stepId != steps[j].stepId
    {
      StepIdsDiffer(i, j);
    }
    AllQueued(steps);
  }

  lemma StepIdsDiffer(i: nat, j: nat)
    ensures "exec_" + SegmentId(i) == "exec_" + SegmentId(j) ==> i == j
  {
    if "exec_" + SegmentId(i) == "exec_" + SegmentId(j) {
      assert ("exec_" + SegmentId(i))[5..] == SegmentId(i) && ("exec_" + SegmentId(j))[5..] == SegmentId(j);
      SegmentIdsDiffer(i, j);
    }
  }

  lemma {:induction false} AllQueued(steps: seq<Step>)
    requires forall i :: 0 <= i < |steps| ==> steps[i].status.Queued?
    ensures Remaining(steps) == |steps| && SucceededCount(steps) == 0
  {
    if |steps| > 0 {
      AllQueued(steps[..|steps| - 1]);
    }
  }

  /**
   The prompt survives dispatch: after any run of the protocol, step `i` of the stored bundle still holds the text
   of segment `i` at its own offsets, and every visible character of the prompt is in exactly one step.
   */
  lemma PromptSurvivesDispatch(text: string, w: nat, maxTokens: int, checksum: string -> string, now: real,
                               st: Bundles, workId: string, ops: seq<Op>)
    requires w >= 1 && workId in st
    requires st[workId].steps == PlanSteps(Ranges(text, w, maxTokens, 0, 0), checksum, now)
    ensures var segs := Ranges(text, w, maxTokens, 0, 0);
            && workId in Run(st, ops)
            && var steps := Run(st, ops)[workId].steps;
               && |steps| == |segs|
               && (forall i :: 0 <= i < |steps| ==>
                     0 <= segs[i].start < segs[i].end <= |text| && steps[i].content == text[segs[i].start..segs[i].end])
               && (forall p :: 0 <= p < |text| && !IsSpace(text[p]) ==> exists i :: HoldsVisible(segs, i, p))
               && (forall p, i, j :: HoldsVisible(segs, i, p) && HoldsVisible(segs, j, p) ==> i == j)
  {
    hide Ranges, IsSpace, Run, SegmentId;
    StoredBundleIsStable(st, ops, workId);
    SplitIsLossless(text, w, maxTokens);
    var segs := Ranges(text, w, maxTokens, 0, 0);
    var steps := Run(st, ops)[workId].steps;
    forall i | 0 <= i < |steps|
      ensures 0 <= segs[i].start < segs[i].end <= |text| && steps[i].content == text[segs[i].start..segs[i].end]
    {
      assert st[workId].steps[i] == StepOf(i, segs[i], checksum, now);
    }
  }
}
