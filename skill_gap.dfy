/** The skill-gap service: classifies each skill and knowledge area a job requires
    against the user's stored levels, and writes the result under (user, job). */
module SkillGap {
  import opened Wrappers
  import opened PyDict
  import PyStr

  const NOT_PROVIDED: string := "Not Provided"

  /** The ordinal scale of proficiency labels (`LEVEL_ORDER`). */
  const LEVEL_ORDER: map<string, nat> :=
    map["Not Provided" := 0, "Basic" := 1, "Intermediate" := 2, "Advanced" := 3]

  datatype Status = Missing | Achieved | Weak

  /** One entry of `gap_analysis["skills"]` or `gap_analysis["knowledge"]`. */
  datatype GapEntry = GapEntry(requiredLevel: string, userLevel: string, status: Status)

  datatype GapAnalysis = GapAnalysis(skills: Dict<string, GapEntry>, knowledge: Dict<string, GapEntry>)

  /** What `compare_and_save` returns. */
  datatype GapResult = GapResult(analysis: GapAnalysis, jobTitle: string)

  /** A user's stored skills and knowledge (name to level label). */
  datatype UserSkills = UserSkills(skills: Dict<string, string>, knowledge: Dict<string, string>)

  /** A stored job: its title, when present, and its requirement maps. */
  datatype JobRecord = JobRecord(
    title: Option<string>,
    requiredSkills: Dict<string, string>,
    requiredKnowledge: Dict<string, string>)

  /** The stored skill-match record of one (user, job) pair. */
  datatype GapRecord = GapRecord(
    skillStatus: Dict<string, GapEntry>,
    knowledgeStatus: Dict<string, GapEntry>,
    jobTitle: string)

  /** One element of the list the batch driver returns. */
  datatype BatchEntry = BatchEntry(jobIndex: string, jobTitle: string, analysis: GapAnalysis)

  const EMPTY_RESULT: GapResult := GapResult(GapAnalysis([], []), "N/A")

  /** `user_map.get(name, "Not Provided")` */
  function UserLevel(user: Dict<string, string>, name: string): string {
    Get(user, name).GetOr(NOT_PROVIDED)
  }

  /** The classification of a pair of labels raises no `KeyError`: a missing user
      level short-circuits, otherwise both labels must be on the scale. */
  predicate Comparable(userLevel: string, requiredLevel: string) {
    userLevel == NOT_PROVIDED || (userLevel in LEVEL_ORDER && requiredLevel in LEVEL_ORDER)
  }

  /** The status of one required item. */
  function Classify(userLevel: string, requiredLevel: string): (s: Status)
    requires Comparable(userLevel, requiredLevel)
    ensures s == Missing <==> userLevel == NOT_PROVIDED
    ensures s == Achieved <==>
              userLevel != NOT_PROVIDED && LEVEL_ORDER[userLevel] >= LEVEL_ORDER[requiredLevel]
    ensures s == Weak <==>
              userLevel != NOT_PROVIDED && LEVEL_ORDER[userLevel] < LEVEL_ORDER[requiredLevel]
  {
    if userLevel == NOT_PROVIDED then Missing
    else if LEVEL_ORDER[userLevel] >= LEVEL_ORDER[requiredLevel] then Achieved
    else Weak
  }

  /** Missing < Weak < Achieved. */
  function Rank(s: Status): nat {
    match s
    case Missing => 0
    case Weak => 1
    case Achieved => 2
  }

  /** A user whose level is at least as high on the scale never gets a worse status. */
  lemma ClassifyMonotone(u1: string, u2: string, r: string)
    requires u1 in LEVEL_ORDER && u2 in LEVEL_ORDER && r in LEVEL_ORDER
    requires LEVEL_ORDER[u1] <= LEVEL_ORDER[u2]
    ensures Rank(Classify(u1, r)) <= Rank(Classify(u2, r))
  {
  }

  /** Every required item of `req` can be classified against `user`. */
  predicate Classifiable(req: Dict<string, string>, user: Dict<string, string>) {
    forall i :: 0 <= i < |req| ==> Comparable(UserLevel(user, req[i].0), req[i].1)
  }

  function Entry(user: Dict<string, string>, name: string, requiredLevel: string): GapEntry
    requires Comparable(UserLevel(user, name), requiredLevel)
  {
    GapEntry(requiredLevel, UserLevel(user, name), Classify(UserLevel(user, name), requiredLevel))
  }

  /** The analysis of one requirement map: `gap[name] = entry` for each required
      item, in the order of the requirement map. */
  function Analyze(req: Dict<string, string>, user: Dict<string, string>): (gap: Dict<string, GapEntry>)
    requires Classifiable(req, user)
    ensures forall k :: k in Keys(gap) <==> k in Keys(req)
  {
    if req == [] then []
    else
      var n := |req| - 1;
      ClassifiablePrefix(req, user, n);
      KeysSnoc(req);
      Put(Analyze(req[..n], user), req[n].0, Entry(user, req[n].0, req[n].1))
  }

  lemma ClassifiablePrefix(req: Dict<string, string>, user: Dict<string, string>, n: nat)
    requires Classifiable(req, user) && n <= |req|
    ensures Classifiable(req[..n], user)
  {
    forall i | 0 <= i < n ensures req[..n][i] == req[i] { }
  }

  /** The analysis has exactly the required items as keys, in the same order: items
      only the user has are ignored. */
  lemma {:induction false} AnalyzeKeys(req: Dict<string, string>, user: Dict<string, string>)
    requires DistinctKeys(req) && Classifiable(req, user)
    ensures Keys(Analyze(req, user)) == Keys(req)
  {
    if req != [] {
      var n := |req| - 1;
      ClassifiablePrefix(req, user, n);
      AnalyzeKeys(req[..n], user);
      var prev := Analyze(req[..n], user);
      KeysSnoc(req);
      assert req[n].0 !in Keys(prev);
      assert Analyze(req, user) == Put(prev, req[n].0, Entry(user, req[n].0, req[n].1));
    }
  }

  /** Each entry of the analysis records the required level, the user's level as
      looked up ("Not Provided" when absent) and its classification. */
  lemma AnalyzeEntries(req: Dict<string, string>, user: Dict<string, string>)
    requires DistinctKeys(req) && Classifiable(req, user)
    ensures forall i :: 0 <= i < |req| ==>
              Get(Analyze(req, user), req[i].0) == Some(Entry(user, req[i].0, req[i].1))
  {
    forall i | 0 <= i < |req|
      ensures Get(Analyze(req, user), req[i].0) == Some(Entry(user, req[i].0, req[i].1))
    {
      AnalyzeEntry(req, user, i);
    }
  }

  lemma {:induction false} AnalyzeEntry(req: Dict<string, string>, user: Dict<string, string>, i: nat)
    requires DistinctKeys(req) && Classifiable(req, user) && i < |req|
    ensures Get(Analyze(req, user), req[i].0) == Some(Entry(user, req[i].0, req[i].1))
  {
    var n := |req| - 1;
    ClassifiablePrefix(req, user, n);
    if i < n {
      assert DistinctKeys(req[..n]);
      AnalyzeEntry(req[..n], user, i);
      assert req[..n][i] == req[i];
      assert req[i].0 != req[n].0;
    }
  }

  /** The analysis of a dict with distinct keys again has distinct keys. */
  lemma AnalyzeDistinct(req: Dict<string, string>, user: Dict<string, string>)
    requires DistinctKeys(req) && Classifiable(req, user)
    ensures DistinctKeys(Analyze(req, user))
  {
    AnalyzeKeys(req, user);
    var a := Analyze(req, user);
    forall i, j | 0 <= i < j < |a| ensures a[i].0 != a[j].0 {
      assert Keys(a)[i] == a[i].0 && Keys(a)[j] == a[j].0;
      assert Keys(req)[i] == req[i].0 && Keys(req)[j] == req[j].0;
    }
  }

  /** The loop of `compare_and_save` over one requirement map. */
  method CompareItems(req: Dict<string, string>, user: Dict<string, string>)
    returns (out: Dict<string, GapEntry>)
    requires Classifiable(req, user)
    ensures out == Analyze(req, user)
  {
    out := [];
    var i := 0;
    while i < |req|
      invariant 0 <= i <= |req|
      invariant out == Analyze(req[..i], user)
    {
      var (name, requiredLevel) := req[i];
      var userLevel := UserLevel(user, name);
      var status;
      if userLevel == NOT_PROVIDED {
        status := Missing;
      } else if LEVEL_ORDER[userLevel] >= LEVEL_ORDER[requiredLevel] {
        status := Achieved;
      } else {
        status := Weak;
      }
      out := Put(out, name, GapEntry(requiredLevel, userLevel, status));
      assert req[..i + 1][..i] == req[..i];
      i := i + 1;
    }
    assert req[..i] == req;
  }

  /** Both requirement maps of a job can be classified against the user's maps. */
  predicate JobClassifiable(u: UserSkills, j: JobRecord) {
    Classifiable(j.requiredSkills, u.skills) && Classifiable(j.requiredKnowledge, u.knowledge)
  }

  /** What `compare_and_save` returns, given what the store holds for the user and the job. */
  function Compare(user: Option<UserSkills>, job: Option<JobRecord>): (g: GapResult)
    requires user.Some? && job.Some? ==> JobClassifiable(user.value, job.value)
    ensures user.None? || job.None? ==> g == EMPTY_RESULT
    ensures user.Some? && job.Some? ==>
              && g.jobTitle == job.value.title.GetOr("N/A")
              && (forall k :: k in Keys(g.analysis.skills) <==> k in Keys(job.value.requiredSkills))
              && (forall k :: k in Keys(g.analysis.knowledge) <==> k in Keys(job.value.requiredKnowledge))
  {
    if user.None? || job.None? then EMPTY_RESULT
    else
      var u, j := user.value, job.value;
      GapResult(
        GapAnalysis(Analyze(j.requiredSkills, u.skills), Analyze(j.requiredKnowledge, u.knowledge)),
        j.title.GetOr("N/A"))
  }

  function Record(r: GapResult): GapRecord {
    GapRecord(r.analysis.skills, r.analysis.knowledge, r.jobTitle)
  }

  function Lookup<K, V>(m: map<K, V>, k: K): Option<V> {
    if k in m then Some(m[k]) else None
  }

  /** The store after one `compare_and_save`: the pair's record is overwritten
      when both the user and the job were found, and nothing is written otherwise. */
  function Save(
    matches: map<(string, string), GapRecord>,
    users: map<string, UserSkills>, jobs: map<string, JobRecord>,
    u: string, j: string): (saved: map<(string, string), GapRecord>)
    requires u in users && j in jobs ==> JobClassifiable(users[u], jobs[j])
    ensures u in users && j in jobs ==>
              && (u, j) in saved && saved == matches[(u, j) := saved[(u, j)]]
              && saved[(u, j)] == Record(Compare(Some(users[u]), Some(jobs[j])))
    ensures !(u in users && j in jobs) ==> saved == matches
  {
    if u in users && j in jobs
    then matches[(u, j) := Record(Compare(Lookup(users, u), Lookup(jobs, j)))]
    else matches
  }

  /** Saving the same pair twice leaves the store as saving it once. */
  lemma SaveIdempotent(
    matches: map<(string, string), GapRecord>,
    users: map<string, UserSkills>, jobs: map<string, JobRecord>,
    u: string, j: string)
    requires u in users && j in jobs ==> JobClassifiable(users[u], jobs[j])
    ensures Save(Save(matches, users, jobs, u, j), users, jobs, u, j) == Save(matches, users, jobs, u, j)
  {
  }

  /** `str(job["job_index"])` for each job of the corpus: each key reads back as
      its job's index, so two jobs share a key exactly when they share an index. */
  function JobKeys(corpus: seq<int>): (keys: seq<string>)
    ensures |keys| == |corpus| && forall i :: 0 <= i < |corpus| ==> keys[i] == PyStr.IntToStr(corpus[i])
    ensures forall i :: 0 <= i < |corpus| ==> PyStr.ParseInt(keys[i]) == Some(corpus[i])
    ensures forall i, j :: 0 <= i < |corpus| && 0 <= j < |corpus| ==>
              (keys[i] == keys[j] <==> corpus[i] == corpus[j])
  {
    PyStr.IntToStrInjective();
    var keys := seq(|corpus|, i requires 0 <= i < |corpus| => PyStr.IntToStr(corpus[i]));
    assert forall i :: 0 <= i < |corpus| ==> PyStr.ParseInt(keys[i]) == Some(corpus[i]) by {
      forall i | 0 <= i < |corpus| ensures PyStr.ParseInt(keys[i]) == Some(corpus[i]) {
        PyStr.IntToStrRoundTrip(corpus[i]);
      }
    }
    keys
  }

  /** No job of the batch raises `KeyError` in the classification. */
  predicate BatchClassifiable(users: map<string, UserSkills>, jobs: map<string, JobRecord>,
                              u: string, keys: seq<string>)
  {
    forall i :: 0 <= i < |keys| && u in users && keys[i] in jobs ==>
      JobClassifiable(users[u], jobs[keys[i]])
  }

  lemma BatchClassifiablePrefix(users: map<string, UserSkills>, jobs: map<string, JobRecord>,
                                u: string, keys: seq<string>, n: nat)
    requires BatchClassifiable(users, jobs, u, keys) && n <= |keys|
    ensures BatchClassifiable(users, jobs, u, keys[..n])
  {
    forall i | 0 <= i < n ensures keys[..n][i] == keys[i] { }
  }

  /** The store after the batch driver's writes, job by job. */
  function SaveAll(
    matches: map<(string, string), GapRecord>,
    users: map<string, UserSkills>, jobs: map<string, JobRecord>,
    u: string, keys: seq<string>): map<(string, string), GapRecord>
    requires BatchClassifiable(users, jobs, u, keys)
  {
    if keys == [] then matches
    else
      var n := |keys| - 1;
      BatchClassifiablePrefix(users, jobs, u, keys, n);
      Save(SaveAll(matches, users, jobs, u, keys[..n]), users, jobs, u, keys[n])
  }

  lemma SaveOverUnion(
    m: map<(string, string), GapRecord>, x: map<(string, string), GapRecord>,
    users: map<string, UserSkills>, jobs: map<string, JobRecord>, u: string, j: string)
    requires u in users && j in jobs ==> JobClassifiable(users[u], jobs[j])
    ensures Save(m + x, users, jobs, u, j) == m + Save(x, users, jobs, u, j)
  {
    if u in users && j in jobs {
      UpdateOverUnion(m, x, (u, j), Record(Compare(Some(users[u]), Some(jobs[j]))));
    }
  }

  lemma UpdateOverUnion<K, V>(m: map<K, V>, x: map<K, V>, k: K, v: V)
    ensures (m + x)[k := v] == m + x[k := v]
  {
  }

  /** After the batch, the store is the old store overwritten by the records the
      batch writes; the old store does not influence what is written. */
  lemma {:induction false} SaveAllOverwrites(
    matches: map<(string, string), GapRecord>,
    users: map<string, UserSkills>, jobs: map<string, JobRecord>,
    u: string, keys: seq<string>)
    requires BatchClassifiable(users, jobs, u, keys)
    ensures SaveAll(matches, users, jobs, u, keys) == matches + SaveAll(map[], users, jobs, u, keys)
  {
    if keys != [] {
      var n := |keys| - 1;
      BatchClassifiablePrefix(users, jobs, u, keys, n);
      SaveAllOverwrites(matches, users, jobs, u, keys[..n]);
      SaveOverUnion(matches, SaveAll(map[], users, jobs, u, keys[..n]), users, jobs, u, keys[n]);
    }
  }

  /** The batch writes exactly one record per job of the corpus that the store
      resolves, none when the user has no stored skills, and each record is the
      analysis of its (user, job) pair. */
  lemma {:induction false} SaveAllWrites(
    users: map<string, UserSkills>, jobs: map<string, JobRecord>,
    u: string, keys: seq<string>, k: (string, string))
    requires BatchClassifiable(users, jobs, u, keys)
    ensures k in SaveAll(map[], users, jobs, u, keys) <==>
              k.0 == u && u in users && k.1 in jobs && k.1 in keys
    ensures k in SaveAll(map[], users, jobs, u, keys) ==>
              JobClassifiable(users[k.0], jobs[k.1]) &&
              SaveAll(map[], users, jobs, u, keys)[k] == Record(Compare(Lookup(users, k.0), Lookup(jobs, k.1)))
  {
    if keys != [] {
      var n := |keys| - 1;
      BatchClassifiablePrefix(users, jobs, u, keys, n);
      SaveAllWrites(users, jobs, u, keys[..n], k);
      assert keys == keys[..n] + [keys[n]];
    }
  }

  /** Running the batch twice with unchanged inputs leaves the same store as running it once. */
  lemma SaveAllIdempotent(
    matches: map<(string, string), GapRecord>,
    users: map<string, UserSkills>, jobs: map<string, JobRecord>,
    u: string, keys: seq<string>)
    requires BatchClassifiable(users, jobs, u, keys)
    ensures SaveAll(SaveAll(matches, users, jobs, u, keys), users, jobs, u, keys)
         == SaveAll(matches, users, jobs, u, keys)
  {
    var w := SaveAll(map[], users, jobs, u, keys);
    SaveAllOverwrites(matches, users, jobs, u, keys);
    SaveAllOverwrites(matches + w, users, jobs, u, keys);
    assert (matches + w) + w == matches + w;
  }

  lemma SaveAllStep(
    matches: map<(string, string), GapRecord>,
    users: map<string, UserSkills>, jobs: map<string, JobRecord>,
    u: string, keys: seq<string>, i: nat)
    requires BatchClassifiable(users, jobs, u, keys) && i < |keys|
    ensures u in users && keys[i] in jobs ==> JobClassifiable(users[u], jobs[keys[i]])
    ensures BatchClassifiable(users, jobs, u, keys[..i]) && BatchClassifiable(users, jobs, u, keys[..i + 1])
    ensures SaveAll(matches, users, jobs, u, keys[..i + 1])
         == Save(SaveAll(matches, users, jobs, u, keys[..i]), users, jobs, u, keys[i])
  {
    BatchClassifiablePrefix(users, jobs, u, keys, i);
    BatchClassifiablePrefix(users, jobs, u, keys, i + 1);
    assert keys[..i + 1][..i] == keys[..i];
  }

  /** The batch entry for one job. */
  function EntryFor(users: map<string, UserSkills>, jobs: map<string, JobRecord>,
                    u: string, j: string): BatchEntry
    requires u in users && j in jobs ==> JobClassifiable(users[u], jobs[j])
  {
    var r := Compare(Lookup(users, u), Lookup(jobs, j));
    BatchEntry(j, r.jobTitle, r.analysis)
  }

  /** The list the batch driver returns for a non-empty corpus: one entry per job,
      in corpus order, keyed by the stringified job index. */
  function BatchEntries(users: map<string, UserSkills>, jobs: map<string, JobRecord>,
                        u: string, keys: seq<string>): seq<BatchEntry>
    requires BatchClassifiable(users, jobs, u, keys)
  {
    seq(|keys|, i requires 0 <= i < |keys| && BatchClassifiable(users, jobs, u, keys) =>
      EntryFor(users, jobs, u, keys[i]))
  }

  lemma BatchEntriesStep(users: map<string, UserSkills>, jobs: map<string, JobRecord>,
                         u: string, keys: seq<string>, i: nat)
    requires BatchClassifiable(users, jobs, u, keys) && i < |keys|
    ensures BatchClassifiable(users, jobs, u, keys[..i]) && BatchClassifiable(users, jobs, u, keys[..i + 1])
    ensures BatchEntries(users, jobs, u, keys[..i + 1])
         == BatchEntries(users, jobs, u, keys[..i]) + [EntryFor(users, jobs, u, keys[i])]
  {
    BatchClassifiablePrefix(users, jobs, u, keys, i);
    BatchClassifiablePrefix(users, jobs, u, keys, i + 1);
  }

  /** A user with no stored skills does not abort the batch: every job gets an empty
      analysis titled "N/A", and nothing is written. */
  lemma NoUserNoWrites(
    matches: map<(string, string), GapRecord>,
    users: map<string, UserSkills>, jobs: map<string, JobRecord>,
    u: string, keys: seq<string>)
    requires u !in users
    ensures BatchClassifiable(users, jobs, u, keys)
    ensures SaveAll(matches, users, jobs, u, keys) == matches
    ensures forall i :: 0 <= i < |keys| ==>
              BatchEntries(users, jobs, u, keys)[i] == BatchEntry(keys[i], "N/A", GapAnalysis([], []))
  {
    SaveAllOverwrites(matches, users, jobs, u, keys);
    var w := SaveAll(map[], users, jobs, u, keys);
    forall k ensures k !in w {
      SaveAllWrites(users, jobs, u, keys, k);
    }
    assert w == map[];
  }

  /** The skill-gap service over its document store: stored user skills, stored jobs
      (by stringified index), the corpus `get_all_jobs` lists (by job index, in order)
      and the per-(user, job) skill-match records it writes. */
  class SkillGapService {
    var users: map<string, UserSkills>
    var jobs: map<string, JobRecord>
    var corpus: seq<int>
    var matches: map<(string, string), GapRecord>

    constructor (users: map<string, UserSkills>, jobs: map<string, JobRecord>, corpus: seq<int>,
                 matches: map<(string, string), GapRecord>)
      ensures this.users == users && this.jobs == jobs && this.corpus == corpus
      ensures this.matches == matches
    {
      this.users := users;
      this.jobs := jobs;
      this.corpus := corpus;
      this.matches := matches;
    }

    /** `compare_and_save`: returns the analysis of the pair and, when both the user
        and the job are found, overwrites the pair's record with it. */
    method CompareAndSave(userTestId: string, jobMatchId: string) returns (r: GapResult)
      requires userTestId in users && jobMatchId in jobs ==>
                 JobClassifiable(users[userTestId], jobs[jobMatchId])
      modifies this`matches
      ensures r == Compare(Lookup(users, userTestId), Lookup(jobs, jobMatchId))
      ensures matches == Save(old(matches), users, jobs, userTestId, jobMatchId)
      ensures userTestId in users && jobMatchId in jobs ==> matches[(userTestId, jobMatchId)] == Record(r)
    {
      if userTestId !in users {
        return EMPTY_RESULT;
      }
      var userData := users[userTestId];
      if jobMatchId !in jobs {
        return EMPTY_RESULT;
      }
      var jobData := jobs[jobMatchId];
      var skills := CompareItems(jobData.requiredSkills, userData.skills);
      var knowledge := CompareItems(jobData.requiredKnowledge, userData.knowledge);
      var title := jobData.title.GetOr("N/A");
      matches := matches[(userTestId, jobMatchId) := GapRecord(skills, knowledge, title)];
      r := GapResult(GapAnalysis(skills, knowledge), title);
    }

    /** `compute_skill_gaps_for_all_jobs`: an error for an empty corpus, otherwise
        one entry per job in corpus order, each job analysed and saved in turn. */
    method ComputeSkillGapsForAllJobs(userTestId: string) returns (r: Result<seq<BatchEntry>>)
      requires BatchClassifiable(users, jobs, userTestId, JobKeys(corpus))
      modifies this`matches
      ensures corpus == [] ==> r == Err("No jobs found in the database.") && matches == old(matches)
      ensures corpus != [] ==> r == Ok(BatchEntries(users, jobs, userTestId, JobKeys(corpus)))
      ensures corpus != [] ==> matches == SaveAll(old(matches), users, jobs, userTestId, JobKeys(corpus))
    {
      if corpus == [] {
        return Err("No jobs found in the database.");
      }
      ghost var keys := JobKeys(corpus);
      var results: seq<BatchEntry> := [];
      var i := 0;
      while i < |corpus|
        invariant 0 <= i <= |corpus|
        invariant |results| == i
        invariant BatchClassifiable(users, jobs, userTestId, keys[..i])
        invariant results == BatchEntries(users, jobs, userTestId, keys[..i])
        invariant matches == SaveAll(old(matches), users, jobs, userTestId, keys[..i])
      {
        var jobIndex := PyStr.IntToStr(corpus[i]);
        SaveAllStep(old(matches), users, jobs, userTestId, keys, i);
        BatchEntriesStep(users, jobs, userTestId, keys, i);
        var gap := CompareAndSave(userTestId, jobIndex);
        results := results + [BatchEntry(jobIndex, gap.jobTitle, gap.analysis)];
        i := i + 1;
      }
      assert keys[..i] == keys;
      return Ok(results);
    }
  }

  /** The worked example of a user with intermediate Python against a job asking
      for advanced Python and basic SQL: Python is weak and SQL is missing. */
  lemma WeakAndMissingExample()
    ensures var req := [("Python", "Advanced"), ("SQL", "Basic")];
            var user := [("Python", "Intermediate")];
            Classifiable(req, user) &&
            Analyze(req, user) == [("Python", GapEntry("Advanced", "Intermediate", Weak)),
                                   ("SQL", GapEntry("Basic", NOT_PROVIDED, Missing))]
  {
    var req := [("Python", "Advanced"), ("SQL", "Basic")];
    var user := [("Python", "Intermediate")];
    assert UserLevel(user, "SQL") == NOT_PROVIDED;
    assert req[..1] == [("Python", "Advanced")];
    assert req[..1][..0] == [];
  }
}
