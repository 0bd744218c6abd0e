/** Binding one waiting job to a signed run: `select_job_handle`,
    crates/flanforge-forgejo/src/jobs.rs. */
module Jobs {
  import opened Base

  /** A listed job. The run is absent below Forgejo v16. */
  datatype Job = Job(attempt: nat, runId: Option<int>, handle: string, name: string, runsOn: seq<string>,
      status: string)

  datatype Binding = Binding(jobLabel: string, jobName: string, runId: nat)

  datatype Reject = Structure | Name | Status | Label | Handle

  /** The answer is fatal, none yet, or a handle. */
  datatype Selection = Rejected | Nothing | Chosen(handle: string)

  predicate IsAlphanumeric(c: char) {
    'a' <= c <= 'z' || 'A' <= c <= 'Z' || '0' <= c <= '9'
  }

  predicate IsOpaqueToken(s: string) {
    1 <= |s| <= 128 &&
    forall i :: 0 <= i < |s| ==> IsAlphanumeric(s[i]) || s[i] == '-' || s[i] == '_' || s[i] == '.' || s[i] == ':'
  }

  predicate IsControl(c: char) {
    c < ' ' || c == 127 as char
  }

  predicate IsWellFormed(j: Job) {
    && j.attempt >= 1
    && IsOpaqueToken(j.handle)
    && 1 <= |j.name| <= 128 && (forall i :: 0 <= i < |j.name| ==> !IsControl(j.name[i]))
    && 1 <= |j.runsOn| <= 32 && (forall i :: 0 <= i < |j.runsOn| ==> IsOpaqueToken(j.runsOn[i]))
    && 1 <= |j.status| <= 32 && (forall i :: 0 <= i < |j.status| ==> IsAlphanumeric(j.status[i]) || j.status[i] == '_')
  }

  /** A label or a handle: 1 to 128 characters that need no escaping in a path. */
  ghost predicate IsToken(s: string) {
    1 <= |s| <= 128 && forall c :: c in s ==>
      'a' <= c <= 'z' || 'A' <= c <= 'Z' || '0' <= c <= '9' || c == '-' || c == '_' || c == '.' || c == ':'
  }

  /** A job name: 1 to 128 characters, none of them a control character. */
  ghost predicate IsText(s: string) {
    1 <= |s| <= 128 && forall c :: c in s ==> ' ' <= c && c != 127 as char
  }

  /** The job waits under the authorized name, for this allocation's label alone. */
  ghost predicate Waits(j: Job, b: Binding) {
    && j.attempt >= 1 && j.name == b.jobName && j.status == "waiting" && j.runsOn == [b.jobLabel]
    && IsText(j.name) && IsToken(j.handle) && IsToken(b.jobLabel)
  }

  /** Why a job of the authorized run still cannot be bound. */
  function JobReject(j: Job, b: Binding): Option<Reject> {
    if !IsWellFormed(j) then Some(Structure)
    else if j.name != b.jobName then Some(Name)
    else if j.status != "waiting" then Some(Status)
    else if j.runsOn != [b.jobLabel] then Some(Label)
    else if !IsOpaqueToken(j.handle) then Some(Handle)
    else None
  }

  /** The checks in their order let exactly the waiting job through. */
  lemma NotRejected(j: Job, b: Binding)
    ensures JobReject(j, b).None? <==> Waits(j, b)
  {
    TokenShape(j.handle);
    TokenShape(b.jobLabel);
    forall i | 0 <= i < |j.name| ensures j.name[i] in j.name {
    }
    if JobReject(j, b).None? {
      assert j.runsOn[0] == b.jobLabel;
    }
  }

  lemma TokenShape(s: string)
    ensures IsOpaqueToken(s) <==> IsToken(s)
  {
    forall i | 0 <= i < |s| ensures s[i] in s {
    }
  }

  /** A run id that cannot be a real row is no run id at all. */
  predicate IsFromRun(j: Job, run: nat) {
    j.runId.Some? && j.runId.value > 0 && j.runId.value == run
  }

  /** Some listed job carries a run, usable or not. */
  ghost predicate BindsRun(jobs: multiset<Job>) {
    exists j :: j in jobs && j.runId.Some?
  }

  /** The jobs the binding admits: those of the signed run where Forgejo publishes runs, and all of
      them where it does not. */
  ghost function Admitted(jobs: multiset<Job>, b: Binding): multiset<Job> {
    if BindsRun(jobs) then Only(jobs, b.runId) else jobs
  }

  ghost function Only(jobs: multiset<Job>, run: nat): (r: multiset<Job>)
    ensures r <= jobs
    ensures forall j :: r[j] == if run > 0 && j.runId == Some(run) then jobs[j] else 0
    decreases |jobs|
  {
    if jobs == multiset{} then multiset{}
    else
      var j :| j in jobs;
      var rest := Only(jobs[j := 0], run);
      if run > 0 && j.runId == Some(run) then rest[j := jobs[j]] else rest
  }

  /** The selection, as a function of the jobs listed and not of their order: exactly one admitted
      job, and it waits as authorized. */
  ghost predicate IsSelection(jobs: multiset<Job>, b: Binding, r: Selection) {
    var admitted := Admitted(jobs, b);
    match r
    case Nothing => admitted == multiset{}
    case Chosen(h) => exists j :: admitted == multiset{j} && Waits(j, b) && j.handle == h
    case Rejected => admitted != multiset{} && forall j :: admitted == multiset{j} ==> !Waits(j, b)
  }

  /** The source's filter-and-pop over the listing. */
  method SelectJobHandle(jobs: seq<Job>, b: Binding) returns (r: Selection)
    ensures IsSelection(multiset(jobs), b, r)
    ensures r == Nothing <==> Admitted(multiset(jobs), b) == multiset{}
    ensures r.Chosen? <==> exists j ::
              && Admitted(multiset(jobs), b) == multiset{j}
              && j.attempt >= 1 && j.name == b.jobName && j.status == "waiting" && j.runsOn == [b.jobLabel]
              && 1 <= |j.name| <= 128 && (forall c :: c in j.name ==> ' ' <= c && c != 127 as char)
              && 1 <= |j.handle| <= 128
              && (forall c :: c in j.handle ==>
                  'a' <= c <= 'z' || 'A' <= c <= 'Z' || '0' <= c <= '9' || c == '-' || c == '_' || c == '.' || c == ':')
              && IsToken(b.jobLabel)
    ensures r.Chosen? ==> exists j ::
              && j in jobs && j.handle == r.handle && j.name == b.jobName
              && j.status == "waiting" && j.runsOn == [b.jobLabel] && (j.runId.None? || j.runId == Some(b.runId))
  {
    r := Select(jobs, b);
    if r.Chosen? {
      ghost var j :| Admitted(multiset(jobs), b) == multiset{j} && Waits(j, b) && j.handle == r.handle;
      assert j in Admitted(multiset(jobs), b);
      assert j in multiset(jobs);
    }
  }

  /** The filter and the checks, against the selection. */
  method Select(jobs: seq<Job>, b: Binding) returns (r: Selection)
    ensures IsSelection(multiset(jobs), b, r)
  {
    if |jobs| == 0 {
      return Nothing;
    }
    var bindsRun := false;
    for i := 0 to |jobs|
      invariant bindsRun <==> exists k :: 0 <= k < i && jobs[k].runId.Some?
    {
      bindsRun := bindsRun || jobs[i].runId.Some?;
    }
    assert bindsRun <==> BindsRun(multiset(jobs)) by {
      if k :| 0 <= k < |jobs| && jobs[k].runId.Some? {
        assert jobs[k] in multiset(jobs);
      }
    }
    var authorized := jobs;
    if bindsRun {
      authorized := FromRun(jobs, b.runId);
    }
    assert multiset(authorized) == Admitted(multiset(jobs), b);
    if |authorized| == 0 {
      return Nothing;
    }
    if |authorized| != 1 {
      forall j ensures multiset(authorized) != multiset{j} {
        assert |multiset(authorized)| != |multiset{j}|;
      }
      return Rejected;
    }
    var job := authorized[0];
    assert authorized == [job];
    assert multiset(authorized) == multiset{job};
    NotRejected(job, b);
    if JobReject(job, b).Some? {
      forall j | multiset{job} == multiset{j} ensures j == job {
        assert job in multiset{j};
      }
      return Rejected;
    }
    r := Chosen(job.handle);
  }

  /** The jobs of one run, in listing order. */
  method FromRun(jobs: seq<Job>, run: nat) returns (kept: seq<Job>)
    ensures multiset(kept) == Only(multiset(jobs), run)
  {
    kept := [];
    for i := 0 to |jobs|
      invariant forall j :: multiset(kept)[j] == if IsFromRun(j, run) then multiset(jobs[..i])[j] else 0
    {
      assert jobs[..i + 1] == jobs[..i] + [jobs[i]];
      if IsFromRun(jobs[i], run) {
        kept := kept + [jobs[i]];
      }
    }
    assert jobs[..|jobs|] == jobs;
  }

  // ---------------------------------------------------------------- order

  /** The listing decides the answer; its order and the loop cannot. */
  lemma SelectionIsUnique(jobs: multiset<Job>, b: Binding, r: Selection, t: Selection)
    requires IsSelection(jobs, b, r) && IsSelection(jobs, b, t)
    ensures r == t
  {
    var admitted := Admitted(jobs, b);
    if r.Chosen? {
      var j :| admitted == multiset{j} && Waits(j, b) && j.handle == r.handle;
      assert j in admitted;
      if t.Chosen? {
        var k :| admitted == multiset{k} && Waits(k, b) && k.handle == t.handle;
        assert k in multiset{j};
      }
    }
  }

  /** A selection exists for every listing, so the two lemmas make it a function of the multiset. */
  lemma SelectionExists(jobs: multiset<Job>, b: Binding) returns (r: Selection)
    ensures IsSelection(jobs, b, r)
  {
    var admitted := Admitted(jobs, b);
    if admitted == multiset{} {
      r := Nothing;
    } else if j :| admitted == multiset{j} && Waits(j, b) {
      r := Chosen(j.handle);
    } else {
      r := Rejected;
    }
  }

  // ---------------------------------------------------------------- decoys

  /** Jobs of other runs, or of none. */
  ghost predicate AreDecoys(decoys: multiset<Job>, b: Binding) {
    forall j :: j in decoys ==> b.runId == 0 || j.runId != Some(b.runId)
  }

  /** While some job other than the decoys publishes a run, decoys in any number and at any position
      leave the answer as it was. */
  lemma DecoysChangeNothing(jobs: multiset<Job>, decoys: multiset<Job>, b: Binding, r: Selection)
    requires AreDecoys(decoys, b) && BindsRun(jobs)
    ensures IsSelection(jobs + decoys, b, r) <==> IsSelection(jobs, b, r)
  {
    var j :| j in jobs && j.runId.Some?;
    assert j in jobs + decoys;
    assert Only(jobs + decoys, b.runId) == Only(jobs, b.runId);
  }

  /** A job that alone decides: a single job nothing rejects. */
  ghost predicate Binds(jobs: multiset<Job>, b: Binding) {
    exists j :: jobs == multiset{j} && Waits(j, b)
  }

  /** When decoys leave the answer alone, over all listings: there are none, or the listing publishes
      a run; or nothing is listed and the decoys publish one; or the listing publishes no run, nor do
      the decoys, and it was fatal to begin with. In the remaining cases, below Forgejo v16, one
      decoy is enough to hide the job or to make it ambiguous. */
  lemma WhenDecoysChangeNothing(jobs: multiset<Job>, decoys: multiset<Job>, b: Binding, r: Selection, t: Selection)
    requires AreDecoys(decoys, b) && IsSelection(jobs, b, r) && IsSelection(jobs + decoys, b, t)
    ensures r == t <==>
            decoys == multiset{} || BindsRun(jobs) || (jobs == multiset{} && BindsRun(decoys)) ||
            (jobs != multiset{} && !BindsRun(decoys) && !Binds(jobs, b))
  {
    if decoys == multiset{} {
      assert jobs + decoys == jobs;
      SelectionIsUnique(jobs, b, r, t);
    } else if BindsRun(jobs) {
      DecoysChangeNothing(jobs, decoys, b, t);
      SelectionIsUnique(jobs, b, r, t);
    } else if BindsRun(decoys) {
      DecoysHideUnpublished(jobs, decoys, b);
      SelectionIsUnique(jobs + decoys, b, t, Nothing);
      assert r == Nothing <==> jobs == multiset{};
    } else {
      assert Admitted(jobs, b) == jobs;
      assert Admitted(jobs + decoys, b) == jobs + decoys;
      UnpublishedDecoys(jobs, decoys, b, r, t);
    }
  }

  lemma DecoysHideUnpublished(jobs: multiset<Job>, decoys: multiset<Job>, b: Binding)
    requires AreDecoys(decoys, b) && !BindsRun(jobs) && BindsRun(decoys)
    ensures IsSelection(jobs + decoys, b, Nothing)
  {
    var d :| d in decoys && d.runId.Some?;
    assert d in jobs + decoys;
    forall j ensures Only(jobs + decoys, b.runId)[j] == 0 {
      assert j in jobs ==> j.runId.None?;
    }
    assert Only(jobs + decoys, b.runId) == multiset{};
  }

  lemma UnpublishedDecoys(jobs: multiset<Job>, decoys: multiset<Job>, b: Binding, r: Selection, t: Selection)
    requires !BindsRun(jobs) && !BindsRun(jobs + decoys) && decoys != multiset{}
    requires IsSelection(jobs, b, r) && IsSelection(jobs + decoys, b, t)
    ensures r == t <==> jobs != multiset{} && !Binds(jobs, b)
  {
    if jobs == multiset{} {
      assert r == Nothing;
    } else {
      UnpublishedAmbiguous(jobs, decoys, b);
      SelectionIsUnique(jobs + decoys, b, t, Rejected);
      assert r == Rejected <==> !Binds(jobs, b);
    }
  }

  function Unpublished(tag: string, name: string): Job {
    Job(1, None, "h", name, [tag], "waiting")
  }

  /** The failing family in one listing: the job waits alone and is bound; a decoy of another run turns
      the filter on and hides it, and a decoy without a run makes the pair ambiguous. */
  lemma OneDecoyUndoesAnUnpublishedJob(b: Binding, run: int)
    requires b.jobLabel == "l" && b.jobName == "n" && run != b.runId
    ensures IsSelection(multiset{Unpublished("l", "n")}, b, Chosen("h"))
    ensures var d := Unpublished("l", "n").(runId := Some(run));
            IsSelection(multiset{Unpublished("l", "n")} + multiset{d}, b, Nothing)
    ensures IsSelection(multiset{Unpublished("l", "n")} + multiset{Unpublished("l", "n")}, b, Rejected)
  {
    var j := Unpublished("l", "n");
    var jobs := multiset{j};
    assert Waits(j, b);
    assert !BindsRun(jobs);
    assert IsSelection(jobs, b, Chosen("h"));
    var d := j.(runId := Some(run));
    assert d in multiset{d};
    DecoysHideUnpublished(jobs, multiset{d}, b);
    assert !BindsRun(jobs + jobs);
    UnpublishedAmbiguous(jobs, jobs, b);
  }

  lemma UnpublishedAmbiguous(jobs: multiset<Job>, decoys: multiset<Job>, b: Binding)
    requires !BindsRun(jobs + decoys) && jobs != multiset{} && decoys != multiset{}
    ensures IsSelection(jobs + decoys, b, Rejected)
  {
    forall j ensures jobs + decoys != multiset{j} {
      assert |jobs| >= 1 && |decoys| >= 1;
      assert |jobs + decoys| == |jobs| + |decoys|;
      assert |multiset{j}| == 1;
    }
  }
}
