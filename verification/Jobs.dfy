/** Chunk jobs over all entries of a transfer, and the two sums both sides keep about them. Entry `i` has plan
    `plans[i]` and completed chunks `done[i]`; a directory has a plan without chunks. */
module Jobs {
  import opened Wrappers
  import opened Chunks

  datatype ChunkJob = ChunkJob(entryIndex: nat, spec: ChunkSpec)

  predicate ValidPlans(plans: seq<ChunkPlan>) {
    forall i | 0 <= i < |plans| :: plans[i].Valid()
  }

  predicate Fits(plans: seq<ChunkPlan>, done: seq<set<nat>>) {
    |done| == |plans| && forall i | 0 <= i < |plans| :: done[i] <= Below(plans[i].chunkCount)
  }

  function Tag(entryIndex: nat, specs: seq<ChunkSpec>): (r: seq<ChunkJob>)
    ensures |r| == |specs|
    ensures forall k | 0 <= k < |r| :: r[k] == ChunkJob(entryIndex, specs[k])
  {
    if specs == [] then [] else [ChunkJob(entryIndex, specs[0])] + Tag(entryIndex, specs[1..])
  }

  /** The missing chunks of the entries from `i` on, entry by entry and in index order. */
  function MissingJobs(plans: seq<ChunkPlan>, done: seq<set<nat>>, i: nat): seq<ChunkJob>
    requires ValidPlans(plans) && |done| == |plans| && i <= |plans|
    decreases |plans| - i
  {
    if i == |plans| then [] else Tag(i, MissingFrom(plans[i], done[i], 0)) + MissingJobs(plans, done, i + 1)
  }

  /** How many chunks of the entries from `i` on are still missing. */
  function Remaining(plans: seq<ChunkPlan>, done: seq<set<nat>>, i: nat): int
    requires |done| == |plans| && i <= |plans|
    decreases |plans| - i
  {
    if i == |plans| then 0 else plans[i].chunkCount - |done[i]| + Remaining(plans, done, i + 1)
  }

  /** The bytes of the completed chunks of the entries from `i` on. */
  function DoneBytes(plans: seq<ChunkPlan>, done: seq<set<nat>>, i: nat): nat
    requires ValidPlans(plans) && |done| == |plans| && i <= |plans|
    decreases |plans| - i
  {
    if i == |plans| then 0 else BytesFrom(plans[i], done[i], 0) + DoneBytes(plans, done, i + 1)
  }

  /** One entry's share in the two sums. */
  lemma OnePlanMore(plans: seq<ChunkPlan>, done: seq<set<nat>>, i: nat)
    requires ValidPlans(plans) && |done| == |plans| && i < |plans|
    ensures Remaining(plans, done, i) == plans[i].chunkCount - |done[i]| + Remaining(plans, done, i + 1)
    ensures DoneBytes(plans, done, i) == BytesFrom(plans[i], done[i], 0) + DoneBytes(plans, done, i + 1)
  {
    hide ChunkPlan.Valid, ChunkPlan.At, BytesFrom;
  }

  lemma NoPlanLeft(plans: seq<ChunkPlan>, done: seq<set<nat>>)
    requires ValidPlans(plans) && |done| == |plans|
    ensures Remaining(plans, done, |plans|) == 0 && DoneBytes(plans, done, |plans|) == 0
  {
  }

  function TotalBytes(plans: seq<ChunkPlan>, i: nat): nat
    requires i <= |plans|
    decreases |plans| - i
  {
    if i == |plans| then 0 else plans[i].fileSize + TotalBytes(plans, i + 1)
  }

  function JobBytes(jobs: seq<ChunkJob>): nat {
    if jobs == [] then 0 else jobs[0].spec.length + JobBytes(jobs[1..])
  }

  lemma {:induction false} JobBytesConcat(a: seq<ChunkJob>, b: seq<ChunkJob>)
    ensures JobBytes(a + b) == JobBytes(a) + JobBytes(b)
  {
    if a == [] {
      assert a + b == b;
    } else {
      assert (a + b)[1..] == a[1..] + b;
      JobBytesConcat(a[1..], b);
    }
  }

  lemma {:induction false} TagBytes(entryIndex: nat, specs: seq<ChunkSpec>)
    ensures JobBytes(Tag(entryIndex, specs)) == SumLengths(specs)
  {
    if specs != [] {
      TagBytes(entryIndex, specs[1..]);
      assert Tag(entryIndex, specs)[1..] == Tag(entryIndex, specs[1..]);
    }
  }

  // ----- the two sums agree with the job list -----

  lemma JobsOfOneSum(plan: ChunkPlan, done: set<nat>, i: nat)
    requires plan.Valid() && done <= Below(plan.chunkCount)
    ensures |Tag(i, MissingFrom(plan, done, 0))| == plan.chunkCount - |done|
    ensures JobBytes(Tag(i, MissingFrom(plan, done, 0))) + BytesFrom(plan, done, 0) == plan.fileSize
  {
    MissingCount(plan, done);
    CompletedPlusMissingIsFileSize(plan, done);
    TagBytes(i, MissingFrom(plan, done, 0));
  }

  /** As many jobs as missing chunks, and job bytes plus completed bytes make up the whole transfer. */
  lemma {:induction false} JobSums(plans: seq<ChunkPlan>, done: seq<set<nat>>, i: nat)
    requires ValidPlans(plans) && Fits(plans, done) && i <= |plans|
    ensures |MissingJobs(plans, done, i)| == Remaining(plans, done, i)
    ensures JobBytes(MissingJobs(plans, done, i)) + DoneBytes(plans, done, i) == TotalBytes(plans, i)
    decreases |plans| - i
  {
    hide ChunkPlan.Valid, ChunkPlan.At, MissingFrom, BytesFrom, JobBytes, Below, Tag;
    if i < |plans| {
      JobSums(plans, done, i + 1);
      JobsOfOneSum(plans[i], done[i], i);
      JobBytesConcat(Tag(i, MissingFrom(plans[i], done[i], 0)), MissingJobs(plans, done, i + 1));
    } else {
      assert MissingJobs(plans, done, i) == [];
      NoJobBytes();
    }
  }

  lemma NoJobBytes()
    ensures JobBytes([]) == 0
  {
  }

  predicate Precedes(a: ChunkJob, b: ChunkJob) {
    a.entryIndex < b.entryIndex || (a.entryIndex == b.entryIndex && a.spec.index < b.spec.index)
  }

  /** A job that stands for a chunk still missing. */
  predicate IsMissing(plans: seq<ChunkPlan>, done: seq<set<nat>>, job: ChunkJob)
    requires ValidPlans(plans) && |done| == |plans|
  {
    && job.entryIndex < |plans|
    && job.spec.index < plans[job.entryIndex].chunkCount
    && job.spec.index !in done[job.entryIndex]
    && job.spec == plans[job.entryIndex].At(job.spec.index)
  }

  ghost predicate StrictlyOrdered(jobs: seq<ChunkJob>) {
    forall k, l | 0 <= k < l < |jobs| :: Precedes(jobs[k], jobs[l])
  }

  lemma JobsOfOneEntry(plans: seq<ChunkPlan>, done: seq<set<nat>>, i: nat)
    requires ValidPlans(plans) && |done| == |plans| && i < |plans|
    ensures var jobs := Tag(i, MissingFrom(plans[i], done[i], 0));
            && StrictlyOrdered(jobs)
            && forall k | 0 <= k < |jobs| :: jobs[k].entryIndex == i && IsMissing(plans, done, jobs[k])
  {
    MissingExactly(plans[i], done[i], 0);
  }

  lemma NoJobsOrdered()
    ensures StrictlyOrdered([])
  {
  }

  lemma OrderedConcat(a: seq<ChunkJob>, b: seq<ChunkJob>, i: nat)
    requires StrictlyOrdered(a) && StrictlyOrdered(b)
    requires forall k | 0 <= k < |a| :: a[k].entryIndex == i
    requires forall k | 0 <= k < |b| :: b[k].entryIndex > i
    ensures StrictlyOrdered(a + b)
  {
  }

  /** The job list holds only missing (entry, chunk) pairs, strictly ordered, so none twice. */
  lemma {:induction false} JobsExactly(plans: seq<ChunkPlan>, done: seq<set<nat>>, i: nat)
    requires ValidPlans(plans) && |done| == |plans| && i <= |plans|
    ensures var jobs := MissingJobs(plans, done, i);
            && StrictlyOrdered(jobs)
            && forall k | 0 <= k < |jobs| :: jobs[k].entryIndex >= i && IsMissing(plans, done, jobs[k])
    decreases |plans| - i
  {
    hide ChunkPlan.Valid, ChunkPlan.At, IsMissing, MissingFrom, StrictlyOrdered;
    if i < |plans| {
      JobsExactly(plans, done, i + 1);
      JobsOfOneEntry(plans, done, i);
      var head := Tag(i, MissingFrom(plans[i], done[i], 0));
      OrderedConcat(head, MissingJobs(plans, done, i + 1), i);
    } else {
      NoJobsOrdered();
    }
  }

  lemma {:induction false} EveryMissingIsAJob(plans: seq<ChunkPlan>, done: seq<set<nat>>, i: nat, job: ChunkJob)
    requires ValidPlans(plans) && |done| == |plans| && i <= job.entryIndex && IsMissing(plans, done, job)
    ensures job in MissingJobs(plans, done, i)
    decreases |plans| - i
  {
    hide ChunkPlan.Valid, ChunkPlan.At, MissingFrom;
    if i < job.entryIndex {
      EveryMissingIsAJob(plans, done, i + 1, job);
    } else {
      MissingExactly(plans[i], done[i], 0);
      var missing := MissingFrom(plans[i], done[i], 0);
      assert job.spec in missing;
      var k :| 0 <= k < |missing| && missing[k] == job.spec;
      assert Tag(i, missing)[k] == job;
    }
  }

  // ----- marking one chunk -----

  function Mark(done: seq<set<nat>>, f: nat, k: nat): (r: seq<set<nat>>)
    requires f < |done|
    ensures |r| == |done|
  {
    done[f := done[f] + {k}]
  }

  lemma {:induction false} MarkSums(plans: seq<ChunkPlan>, done: seq<set<nat>>, f: nat, k: nat, i: nat)
    requires ValidPlans(plans) && |done| == |plans| && i <= |plans|
    requires f < |plans| && k < plans[f].chunkCount && k !in done[f]
    ensures Remaining(plans, Mark(done, f, k), i) == Remaining(plans, done, i) - if i <= f then 1 else 0
    ensures DoneBytes(plans, Mark(done, f, k), i)
            == DoneBytes(plans, done, i) + if i <= f then plans[f].At(k).length else 0
    decreases |plans| - i
  {
    hide ChunkPlan.Valid, ChunkPlan.At, BytesFrom;
    if i < |plans| {
      MarkSums(plans, done, f, k, i + 1);
      if i == f {
        BytesAddOne(plans[f], done[f], k, 0);
      }
    }
  }

  /** Sums of a part never exceed those of a whole. */
  lemma {:induction false} RemainingMonotone(plans: seq<ChunkPlan>, part: seq<set<nat>>, whole: seq<set<nat>>, i: nat)
    requires |part| == |plans| == |whole| && i <= |plans|
    requires forall j | 0 <= j < |plans| :: part[j] <= whole[j]
    ensures Remaining(plans, whole, i) <= Remaining(plans, part, i)
    decreases |plans| - i
  {
    if i < |plans| {
      SubsetSize(part[i], whole[i]);
      RemainingMonotone(plans, part, whole, i + 1);
    }
  }

  lemma {:induction false} NothingRemainsFrom(plans: seq<ChunkPlan>, done: seq<set<nat>>, i: nat)
    requires |done| == |plans| && i <= |plans|
    requires forall j | 0 <= j < |plans| :: |done[j]| <= plans[j].chunkCount
    ensures Remaining(plans, done, i) >= 0
    ensures Remaining(plans, done, i) == 0 <==> forall j | i <= j < |plans| :: |done[j]| == plans[j].chunkCount
    decreases |plans| - i
  {
    if i < |plans| {
      NothingRemainsFrom(plans, done, i + 1);
    }
  }

  ghost predicate AllDone(plans: seq<ChunkPlan>, done: seq<set<nat>>)
    requires |done| == |plans|
  {
    forall j | 0 <= j < |plans| :: done[j] == Below(plans[j].chunkCount)
  }

  /** Nothing remains exactly when every chunk of every entry is done. */
  lemma NothingRemains(plans: seq<ChunkPlan>, done: seq<set<nat>>)
    requires Fits(plans, done)
    ensures Remaining(plans, done, 0) >= 0
    ensures Remaining(plans, done, 0) == 0 <==> AllDone(plans, done)
  {
    forall j | 0 <= j < |plans|
      ensures |done[j]| <= plans[j].chunkCount
      ensures |done[j]| == plans[j].chunkCount <==> done[j] == Below(plans[j].chunkCount)
    {
      SubsetSize(done[j], Below(plans[j].chunkCount));
    }
    NothingRemainsFrom(plans, done, 0);
  }

  lemma {:induction false} DoneBytesBounded(plans: seq<ChunkPlan>, done: seq<set<nat>>, i: nat)
    requires ValidPlans(plans) && Fits(plans, done) && i <= |plans|
    ensures DoneBytes(plans, done, i) <= TotalBytes(plans, i)
    ensures (forall j | i <= j < |plans| :: done[j] == Below(plans[j].chunkCount)) ==>
              DoneBytes(plans, done, i) == TotalBytes(plans, i)
    decreases |plans| - i
  {
    hide ChunkPlan.Valid, ChunkPlan.At, BytesFrom;
    if i < |plans| {
      DoneBytesBounded(plans, done, i + 1);
      CompletedPlusMissingIsFileSize(plans[i], done[i]);
      if done[i] == Below(plans[i].chunkCount) {
        FullBytes(plans[i], done[i]);
      }
    }
  }
}
