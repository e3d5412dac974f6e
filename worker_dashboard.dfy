/**
 * The worker dashboard: the integer score that ranks open jobs (skills first, then location
 * inside skill matches), the in-place sort by that score, the match badges of a job card,
 * and the list of jobs the worker has not yet applied to.
 */
module JobMatching {
  import opened Common
  import opened JsText
  import opened Jobs
  import Language

  /** The signed-in worker as the ranking reads it: an absent location is the empty string
      and absent skills the empty list. */
  datatype Worker = Worker(id: string, location: string, skills: seq<string>)

  // ---------------------------------------------------------------------------
  // The score
  // ---------------------------------------------------------------------------

  predicate InTitle(job: Job, skill: string) {
    Includes(ToLower(job.title), ToLower(skill))
  }

  predicate InDescription(job: Job, skill: string) {
    Includes(ToLower(job.description), ToLower(skill))
  }

  predicate InWorkerType(job: Job, skill: string) {
    Includes(ToLower(job.workerType), ToLower(skill))
  }

  /** A skill matches a job when the job's title, description or worker type contains it,
      ignoring case. */
  predicate MatchesSkill(job: Job, skill: string) {
    InTitle(job, skill) || InDescription(job, skill) || InWorkerType(job, skill)
  }

  /** What one skill adds: 10000 for the title, 8000 for the description, 6000 for the
      worker type, each counted independently. */
  function SkillPoints(job: Job, skill: string): (p: nat)
    ensures p == 0 <==> !MatchesSkill(job, skill)
    ensures p <= 24000
  {
    (if InTitle(job, skill) then 10000 else 0)
    + (if InDescription(job, skill) then 8000 else 0)
    + (if InWorkerType(job, skill) then 6000 else 0)
  }

  /** The points of all the skills, accumulated in order. */
  function SkillScore(job: Job, skills: seq<string>): nat
    decreases |skills|
  {
    if skills == [] then 0 else SkillScore(job, skills[..|skills| - 1]) + SkillPoints(job, skills[|skills| - 1])
  }

  /** `skillMatch`: some skill matched. */
  predicate SkillMatch(job: Job, skills: seq<string>)
    decreases |skills|
  {
    skills != [] && (SkillMatch(job, skills[..|skills| - 1]) || MatchesSkill(job, skills[|skills| - 1]))
  }

  lemma {:induction false} SkillMatchIff(job: Job, skills: seq<string>)
    ensures SkillMatch(job, skills) <==> exists i :: 0 <= i < |skills| && MatchesSkill(job, skills[i])
    decreases |skills|
  {
    if skills != [] {
      var init := skills[..|skills| - 1];
      SkillMatchIff(job, init);
      if SkillMatch(job, init) {
        var i :| 0 <= i < |init| && MatchesSkill(job, init[i]);
        assert skills[i] == init[i];
      }
      if exists i :: 0 <= i < |skills| && MatchesSkill(job, skills[i]) {
        var i :| 0 <= i < |skills| && MatchesSkill(job, skills[i]);
        if i < |init| {
          assert init[i] == skills[i];
        }
      }
    }
  }

  /** A job scores skill points exactly when some skill matches it. */
  lemma {:induction false} SkillScoreZeroIffNoMatch(job: Job, skills: seq<string>)
    ensures SkillScore(job, skills) == 0 <==> !SkillMatch(job, skills)
    decreases |skills|
  {
    if skills != [] {
      SkillScoreZeroIffNoMatch(job, skills[..|skills| - 1]);
    }
  }

  /** `jobPart.includes(part)` for some part of the job's location. */
  predicate SomeIncludes(jobParts: seq<string>, part: string) {
    exists j :: 0 <= j < |jobParts| && Includes(jobParts[j], part)
  }

  /** A worker location part earns the partial bonus when it is longer than two characters and
      some job location part contains it. */
  predicate PartMatches(part: string, jobParts: seq<string>) {
    |part| > 2 && SomeIncludes(jobParts, part)
  }

  /** How many worker location parts earn the partial bonus (repeated parts count again). */
  function PartialCount(workerParts: seq<string>, jobParts: seq<string>): (n: nat)
    ensures n <= |workerParts|
    decreases |workerParts|
  {
    if workerParts == [] then 0
    else PartialCount(workerParts[..|workerParts| - 1], jobParts)
         + (if PartMatches(workerParts[|workerParts| - 1], jobParts) then 1 else 0)
  }

  /** `workerParts.some(part => part.length > 2 && jobParts.some(...))`. */
  predicate HasPartialMatch(workerParts: seq<string>, jobParts: seq<string>) {
    exists k :: 0 <= k < |workerParts| && PartMatches(workerParts[k], jobParts)
  }

  lemma {:induction false} PartialCountPositive(workerParts: seq<string>, jobParts: seq<string>)
    ensures PartialCount(workerParts, jobParts) > 0 <==> HasPartialMatch(workerParts, jobParts)
    decreases |workerParts|
  {
    if workerParts != [] {
      var init := workerParts[..|workerParts| - 1];
      PartialCountPositive(init, jobParts);
      if HasPartialMatch(init, jobParts) {
        var k :| 0 <= k < |init| && PartMatches(init[k], jobParts);
        assert workerParts[k] == init[k];
      }
      if HasPartialMatch(workerParts, jobParts) {
        var k :| 0 <= k < |workerParts| && PartMatches(workerParts[k], jobParts);
        if k < |init| {
          assert init[k] == workerParts[k];
        }
      }
    }
  }

  /** The location bonus over lowercased locations: 1000 when the job location contains the
      worker location, and otherwise 500 per matching worker location part. */
  function LocationBonus(jobLocation: string, workerLocation: string): (b: nat)
    ensures Includes(jobLocation, workerLocation) ==> b == 1000
    ensures !Includes(jobLocation, workerLocation) ==>
      b == 500 * PartialCount(TrimmedParts(workerLocation, ','), TrimmedParts(jobLocation, ','))
      && b <= 500 * |TrimmedParts(workerLocation, ',')|
  {
    if Includes(jobLocation, workerLocation) then 1000
    else 500 * PartialCount(TrimmedParts(workerLocation, ','), TrimmedParts(jobLocation, ','))
  }

  /** The job's score, without the recency term: the skill points, plus the location bonus
      only when some skill matched and the worker has a location. */
  function JobScore(job: Job, w: Worker): nat {
    SkillScore(job, w.skills)
    + (if SkillMatch(job, w.skills) && w.location != ""
       then LocationBonus(ToLower(job.location), ToLower(w.location)) else 0)
  }

  /** No location bonus without a skill match or without a worker location. */
  lemma LocationNeedsSkillMatch(job: Job, w: Worker)
    ensures !SkillMatch(job, w.skills) || w.location == "" ==> JobScore(job, w) == SkillScore(job, w.skills)
    ensures !SkillMatch(job, w.skills) ==> JobScore(job, w) == 0
  {
    SkillScoreZeroIffNoMatch(job, w.skills);
  }

  /** Any job that matches a skill ranks above any job that matches none. */
  lemma MatchOutranksNoMatch(a: Job, b: Job, w: Worker)
    requires SkillMatch(a, w.skills) && !SkillMatch(b, w.skills)
    ensures JobScore(a, w) > JobScore(b, w)
  {
    SkillScoreZeroIffNoMatch(a, w.skills);
    SkillScoreZeroIffNoMatch(b, w.skills);
  }

  lemma SkillScoreSnoc(job: Job, skills: seq<string>, i: int)
    requires 0 <= i < |skills|
    ensures SkillScore(job, skills[..i + 1]) == SkillScore(job, skills[..i]) + SkillPoints(job, skills[i])
    ensures SkillMatch(job, skills[..i + 1]) == (SkillMatch(job, skills[..i]) || MatchesSkill(job, skills[i]))
  {
    assert skills[..i + 1][..i] == skills[..i];
  }

  lemma PartialCountSnoc(workerParts: seq<string>, jobParts: seq<string>, k: int)
    requires 0 <= k < |workerParts|
    ensures PartialCount(workerParts[..k + 1], jobParts)
      == PartialCount(workerParts[..k], jobParts) + (if PartMatches(workerParts[k], jobParts) then 1 else 0)
  {
    assert workerParts[..k + 1][..k] == workerParts[..k];
  }

  /** `scoreA`/`scoreB` of the comparator: the skills loop, then the location bonus. */
  method ScoreJob(job: Job, w: Worker) returns (score: int, skillMatch: bool)
    ensures score == JobScore(job, w)
    ensures skillMatch == SkillMatch(job, w.skills)
  {
    var title := ToLower(job.title);
    var desc := ToLower(job.description);
    var workerType := ToLower(job.workerType);
    score := 0;
    skillMatch := false;
    for i := 0 to |w.skills|
      invariant score == SkillScore(job, w.skills[..i])
      invariant skillMatch == SkillMatch(job, w.skills[..i])
    {
      SkillScoreSnoc(job, w.skills, i);
      var skillLower := ToLower(w.skills[i]);
      if Includes(title, skillLower) {
        score := score + 10000;
        skillMatch := true;
      }
      if Includes(desc, skillLower) {
        score := score + 8000;
        skillMatch := true;
      }
      if Includes(workerType, skillLower) {
        score := score + 6000;
        skillMatch := true;
      }
    }
    assert w.skills[..|w.skills|] == w.skills;
    if skillMatch && w.location != "" {
      var bonus := LocationPoints(ToLower(job.location), ToLower(w.location));
      score := score + bonus;
    }
  }

  /** The location part of the comparator's score, over lowercased locations. */
  method LocationPoints(jobLocation: string, workerLocation: string) returns (bonus: int)
    ensures bonus == LocationBonus(jobLocation, workerLocation)
  {
    if Includes(jobLocation, workerLocation) {
      return 1000;
    }
    var workerParts := TrimmedParts(workerLocation, ',');
    var jobParts := TrimmedParts(jobLocation, ',');
    bonus := 0;
    for k := 0 to |workerParts|
      invariant bonus == 500 * PartialCount(workerParts[..k], jobParts)
    {
      PartialCountSnoc(workerParts, jobParts, k);
      var part := workerParts[k];
      if |part| > 2 && SomeIncludes(jobParts, part) {
        bonus := bonus + 500;
      }
    }
    assert workerParts[..|workerParts|] == workerParts;
  }

  /** The sort comparator without its recency term: `scoreB - scoreA`, negative when `a`
      ranks first. */
  method Compare(a: Job, b: Job, w: Worker) returns (d: int)
    ensures d == JobScore(b, w) - JobScore(a, w)
  {
    var scoreA, _ := ScoreJob(a, w);
    var scoreB, _ := ScoreJob(b, w);
    d := scoreB - scoreA;
  }

  predicate SortedByScore(s: seq<Job>, w: Worker) {
    forall a, b :: 0 <= a < b < |s| ==> JobScore(s[a], w) >= JobScore(s[b], w)
  }

  /** `s` is in descending order of `key`. */
  predicate SortedDesc<T>(s: seq<T>, key: T -> int) {
    forall a, b :: 0 <= a < b < |s| ==> key(s[a]) >= key(s[b])
  }

  /** `Array.prototype.sort` with a comparator `key(b) - key(a)`: a stable insertion sort that
      leaves the array in descending order of `key`, as a rearrangement of the same elements. */
  method SortByKey<T>(items: array<T>, key: T -> int)
    modifies items
    ensures SortedDesc(items[..], key)
    ensures multiset(items[..]) == multiset(old(items[..]))
  {
    for i := 0 to items.Length
      invariant SortedDesc(items[..i], key)
      invariant multiset(items[..]) == multiset(old(items[..]))
    {
      SinkInto(items, i, key);
    }
    assert items[..items.Length] == items[..];
  }

  /** While the element at `j` rises through `s[..i + 1]`: every other pair is in order, and
      the rising element ranks at least as high as everything it has passed. */
  predicate Sinking<T>(s: seq<T>, i: int, j: int, key: T -> int)
    requires 0 <= j <= i < |s|
  {
    && (forall a, b :: 0 <= a < b <= i && a != j && b != j ==> key(s[a]) >= key(s[b]))
    && (forall b :: j < b <= i ==> key(s[j]) >= key(s[b]))
  }

  /** Swapping the rising element with a lower-ranked predecessor keeps `Sinking`. */
  lemma SwapKeepsSinking<T>(s: seq<T>, i: int, j: int, key: T -> int)
    requires 0 < j <= i < |s|
    requires Sinking(s, i, j, key)
    requires key(s[j]) > key(s[j - 1])
    ensures Sinking(s[j - 1 := s[j]][j := s[j - 1]], i, j - 1, key)
  {
    var t := s[j - 1 := s[j]][j := s[j - 1]];
    forall a, b | 0 <= a < b <= i && a != j - 1 && b != j - 1
      ensures key(t[a]) >= key(t[b])
    {
      if b == j {
        assert t[b] == s[j - 1];
        if a < j - 1 {
          assert key(s[a]) >= key(s[j - 1]);
        }
      } else if a == j {
        assert key(s[j - 1]) >= key(s[b]);
      }
    }
  }

  lemma StartSinking<T>(s: seq<T>, i: int, key: T -> int)
    requires 0 <= i < |s|
    requires SortedDesc(s[..i], key)
    ensures Sinking(s, i, i, key)
  {
    forall a, b | 0 <= a < b < i ensures key(s[a]) >= key(s[b]) {
      assert s[..i][a] == s[a] && s[..i][b] == s[b];
    }
  }

  /** Once the rising element stops (at the top, or under an element that ranks at least as
      high), the prefix is in order. */
  lemma SinkingDone<T>(s: seq<T>, i: int, j: int, key: T -> int)
    requires 0 <= j <= i < |s|
    requires Sinking(s, i, j, key)
    requires j > 0 ==> key(s[j]) <= key(s[j - 1])
    ensures SortedDesc(s[..i + 1], key)
  {
    forall a, b | 0 <= a < b <= i ensures key(s[a]) >= key(s[b]) {
      if b == j && a < j - 1 {
        assert key(s[a]) >= key(s[j - 1]);
      }
    }
  }

  /** Swapping two neighbours keeps the same elements. */
  lemma SwapKeepsMultiset<T>(s: seq<T>, j: int)
    requires 0 < j < |s|
    ensures multiset(s[j - 1 := s[j]][j := s[j - 1]]) == multiset(s)
  {
    var t := s[j - 1 := s[j]][j := s[j - 1]];
    assert s == s[..j - 1] + [s[j - 1], s[j]] + s[j + 1..];
    assert t == s[..j - 1] + [s[j], s[j - 1]] + s[j + 1..];
  }

  /** One pass of the sort: the element at `i` moves up past every element that ranks
      strictly below it. */
  method SinkInto<T>(items: array<T>, i: int, key: T -> int)
    requires 0 <= i < items.Length
    requires SortedDesc(items[..i], key)
    modifies items
    ensures SortedDesc(items[..i + 1], key)
    ensures multiset(items[..]) == multiset(old(items[..]))
  {
    var j := i;
    var placed := false;
    StartSinking(items[..], i, key);
    while j > 0 && !placed
      invariant 0 <= j <= i
      invariant multiset(items[..]) == multiset(old(items[..]))
      invariant Sinking(items[..], i, j, key)
      invariant placed ==> j > 0 && key(items[j]) <= key(items[j - 1])
      decreases j + (if placed then 0 else 1)
    {
      if key(items[j]) - key(items[j - 1]) <= 0 {
        placed := true;
      } else {
        SwapDown(items, i, j, key);
        j := j - 1;
      }
    }
    SinkingDone(items[..], i, j, key);
  }

  /** One step of a pass: the rising element swaps with the lower-ranked one above it. */
  method SwapDown<T>(items: array<T>, i: int, j: int, key: T -> int)
    requires 0 < j <= i < items.Length
    requires Sinking(items[..], i, j, key)
    requires key(items[j]) > key(items[j - 1])
    modifies items
    ensures Sinking(items[..], i, j - 1, key)
    ensures multiset(items[..]) == multiset(old(items[..]))
  {
    ghost var before := items[..];
    SwapKeepsSinking(before, i, j, key);
    SwapKeepsMultiset(before, j);
    items[j - 1], items[j] := items[j], items[j - 1];
    assert items[..] == before[j - 1 := before[j]][j := before[j - 1]];
  }

  /** `smartSortJobs`: sorts the jobs in place, highest score first, as a rearrangement of the
      same jobs. */
  method SmartSortJobs(jobs: array<Job>, w: Worker)
    modifies jobs
    ensures SortedByScore(jobs[..], w)
    ensures multiset(jobs[..]) == multiset(old(jobs[..]))
  {
    SortByKey(jobs, x => JobScore(x, w));
  }

  // ---------------------------------------------------------------------------
  // The match badges
  // ---------------------------------------------------------------------------

  /** A badge of a job card: the matched skills (at most the first two, translated), or one
      of the two location badges. */
  datatype Badge = SkillBadge(skills: seq<string>) | PerfectLocation | NearYou

  /** The skills that match the job, in the worker's order. */
  function MatchedSkills(job: Job, skills: seq<string>): (r: seq<string>)
    ensures |r| <= |skills|
    ensures forall s :: s in r ==> s in skills && MatchesSkill(job, s)
    decreases |skills|
  {
    if skills == [] then []
    else
      var last := skills[|skills| - 1];
      MatchedSkills(job, skills[..|skills| - 1]) + (if MatchesSkill(job, last) then [last] else [])
  }

  /** Every skill of the worker that matches the job is listed, and nothing else. */
  lemma {:induction false} MatchedSkillsMembers(job: Job, skills: seq<string>)
    ensures forall s :: s in MatchedSkills(job, skills) <==> s in skills && MatchesSkill(job, s)
    decreases |skills|
  {
    if skills != [] {
      var init := skills[..|skills| - 1];
      MatchedSkillsMembers(job, init);
      assert forall s :: s in skills <==> s in init || s == skills[|skills| - 1] by {
        assert skills == init + [skills[|skills| - 1]];
      }
    }
  }

  /** Matching distributes over concatenation, so the matched skills keep the worker's order. */
  lemma {:induction false} MatchedSkillsConcat(job: Job, a: seq<string>, b: seq<string>)
    ensures MatchedSkills(job, a + b) == MatchedSkills(job, a) + MatchedSkills(job, b)
    decreases |b|
  {
    if b == [] {
      assert a + b == a;
    } else {
      var init := b[..|b| - 1];
      assert (a + b)[..|a + b| - 1] == a + init;
      assert (a + b)[|a + b| - 1] == b[|b| - 1];
      MatchedSkillsConcat(job, a, init);
    }
  }

  function TranslateAll(skills: seq<string>, lang: Language.Lang): (r: seq<string>)
    ensures |r| == |skills|
    ensures forall i :: 0 <= i < |skills| ==> r[i] == Language.TranslateSkillName(skills[i], lang)
  {
    seq(|skills|, i requires 0 <= i < |skills| => Language.TranslateSkillName(skills[i], lang))
  }

  /** `slice(0, 2)`. */
  function FirstTwo(s: seq<string>): (r: seq<string>)
    ensures |r| <= 2 && |r| <= |s| && r == s[..|r|]
    ensures |s| >= 2 ==> |r| == 2
  {
    if |s| <= 2 then s else s[..2]
  }

  /** The location badge for lowercased locations, once a skill has matched: none without a
      worker location, "Perfect Location" when the job location contains it, "Near You" when
      some part of it matches a part of the job location. */
  function LocationBadges(jobLocation: string, workerLocation: string): seq<Badge> {
    if workerLocation == "" then []
    else if Includes(jobLocation, workerLocation) then [PerfectLocation]
    else if HasPartialMatch(TrimmedParts(workerLocation, ','), TrimmedParts(jobLocation, ',')) then [NearYou]
    else []
  }

  /** The badges of a job card, in order. */
  function Badges(job: Job, w: Worker, lang: Language.Lang): seq<Badge> {
    if SkillMatch(job, w.skills)
    then [SkillBadge(FirstTwo(TranslateAll(MatchedSkills(job, w.skills), lang)))]
         + LocationBadges(ToLower(job.location), ToLower(w.location))
    else []
  }

  /** No badge without a skill match; otherwise at most two badges, the skill badge first,
      naming at most two skills; "Perfect Location" and "Near You" never appear together. */
  lemma BadgeShape(job: Job, w: Worker, lang: Language.Lang)
    ensures var bs := Badges(job, w, lang);
      && (bs == [] <==> !SkillMatch(job, w.skills))
      && |bs| <= 2
      && (bs != [] ==> bs[0].SkillBadge? && |bs[0].skills| <= 2 && |bs[0].skills| >= 1)
      && !(PerfectLocation in bs && NearYou in bs)
  {
    if SkillMatch(job, w.skills) {
      MatchedNonEmpty(job, w.skills);
    }
  }

  lemma {:induction false} MatchedNonEmpty(job: Job, skills: seq<string>)
    requires SkillMatch(job, skills)
    ensures MatchedSkills(job, skills) != []
    decreases |skills|
  {
    var init := skills[..|skills| - 1];
    if !MatchesSkill(job, skills[|skills| - 1]) {
      MatchedNonEmpty(job, init);
    }
  }

  /** A location badge appears exactly when the score receives a location bonus: "Perfect
      Location" with the 1000 bonus, "Near You" with a positive partial bonus. */
  lemma BadgesAgreeWithScore(job: Job, w: Worker, lang: Language.Lang)
    ensures PerfectLocation in Badges(job, w, lang) ==> JobScore(job, w) == SkillScore(job, w.skills) + 1000
    ensures (PerfectLocation in Badges(job, w, lang) || NearYou in Badges(job, w, lang))
            <==> JobScore(job, w) > SkillScore(job, w.skills)
  {
    var wl, jl := ToLower(w.location), ToLower(job.location);
    assert |wl| == |w.location|;
    var lb := LocationBadges(jl, wl);
    LocationBadgesFollowBonus(jl, wl);
    if SkillMatch(job, w.skills) {
      var sb := SkillBadge(FirstTwo(TranslateAll(MatchedSkills(job, w.skills), lang)));
      var bs := [sb] + lb;
      assert Badges(job, w, lang) == bs;
      assert PerfectLocation in bs <==> PerfectLocation in lb;
      assert NearYou in bs <==> NearYou in lb;
    } else {
      assert Badges(job, w, lang) == [];
    }
  }

  /** The location badges say which location bonus applies. */
  lemma LocationBadgesFollowBonus(jobLocation: string, workerLocation: string)
    ensures var lb := LocationBadges(jobLocation, workerLocation);
      && (PerfectLocation in lb ==> workerLocation != "" && LocationBonus(jobLocation, workerLocation) == 1000)
      && ((PerfectLocation in lb || NearYou in lb) <==> workerLocation != "" && LocationBonus(jobLocation, workerLocation) > 0)
  {
    if workerLocation != "" {
      var bonus := LocationBonus(jobLocation, workerLocation);
      LocationBadgesAgree(jobLocation, workerLocation);
      BadgeOfBonus(Includes(jobLocation, workerLocation), bonus);
    }
  }

  /** The badge chosen from the "contains" test and the bonus. */
  lemma BadgeOfBonus(contains: bool, bonus: int)
    requires contains ==> bonus == 1000
    ensures var lb := if contains then [PerfectLocation] else if bonus > 0 then [NearYou] else [];
      && (PerfectLocation in lb ==> bonus == 1000)
      && ((PerfectLocation in lb || NearYou in lb) <==> bonus > 0)
  {
  }

  /** For a non-empty worker location, the location badge follows the location bonus. */
  lemma LocationBadgesAgree(jobLocation: string, workerLocation: string)
    requires workerLocation != ""
    ensures LocationBadges(jobLocation, workerLocation) ==
      if Includes(jobLocation, workerLocation) then [PerfectLocation]
      else if LocationBonus(jobLocation, workerLocation) > 0 then [NearYou] else []
  {
    if !Includes(jobLocation, workerLocation) {
      PartialCountPositive(TrimmedParts(workerLocation, ','), TrimmedParts(jobLocation, ','));
    }
  }

  lemma MatchedSkillsSnoc(job: Job, skills: seq<string>, i: int, lang: Language.Lang)
    requires 0 <= i < |skills|
    ensures TranslateAll(MatchedSkills(job, skills[..i + 1]), lang)
      == TranslateAll(MatchedSkills(job, skills[..i]), lang)
         + (if MatchesSkill(job, skills[i]) then [Language.TranslateSkillName(skills[i], lang)] else [])
  {
    assert skills[..i + 1][..i] == skills[..i];
    var m := MatchedSkills(job, skills[..i]);
    if MatchesSkill(job, skills[i]) {
      TranslateAllSnoc(m, skills[i], lang);
    }
  }

  /** Translating a list with one more skill appends that skill's translation. */
  lemma TranslateAllSnoc(m: seq<string>, x: string, lang: Language.Lang)
    ensures TranslateAll(m + [x], lang) == TranslateAll(m, lang) + [Language.TranslateSkillName(x, lang)]
  {
    var l, r := TranslateAll(m + [x], lang), TranslateAll(m, lang) + [Language.TranslateSkillName(x, lang)];
    assert forall k :: 0 <= k < |m| ==> (m + [x])[k] == m[k];
    assert |l| == |r|;
    assert forall k :: 0 <= k < |l| ==> l[k] == r[k];
  }

  /** The skills loop of `getJobMatchInfo`: whether some skill matches, and the translated
      matched skills in the worker's order. */
  method CollectMatchedSkills(job: Job, skills: seq<string>, lang: Language.Lang)
    returns (hasSkillMatch: bool, matchedSkills: seq<string>)
    ensures hasSkillMatch == SkillMatch(job, skills)
    ensures matchedSkills == TranslateAll(MatchedSkills(job, skills), lang)
  {
    var title := ToLower(job.title);
    var desc := ToLower(job.description);
    var workerType := ToLower(job.workerType);
    hasSkillMatch := false;
    matchedSkills := [];
    for i := 0 to |skills|
      invariant hasSkillMatch == SkillMatch(job, skills[..i])
      invariant matchedSkills == TranslateAll(MatchedSkills(job, skills[..i]), lang)
    {
      SkillScoreSnoc(job, skills, i);
      MatchedSkillsSnoc(job, skills, i, lang);
      var skillLower := ToLower(skills[i]);
      assert MatchesSkill(job, skills[i]) <==>
        Includes(title, skillLower) || Includes(desc, skillLower) || Includes(workerType, skillLower);
      if Includes(title, skillLower) || Includes(desc, skillLower) || Includes(workerType, skillLower) {
        hasSkillMatch := true;
        matchedSkills := matchedSkills + [Language.TranslateSkillName(skills[i], lang)];
      }
    }
    assert skills[..|skills|] == skills;
  }

  /** `getJobMatchInfo`: the skills loop collects the translated matched skills, then the
      badges are pushed. */
  method GetJobMatchInfo(job: Job, w: Worker, lang: Language.Lang) returns (matches: seq<Badge>)
    ensures matches == Badges(job, w, lang)
  {
    var workerLocation := ToLower(w.location);
    var jobLocation := ToLower(job.location);
    var hasSkillMatch, matchedSkills := CollectMatchedSkills(job, w.skills, lang);
    matches := [];
    if hasSkillMatch {
      matches := matches + [SkillBadge(FirstTwo(matchedSkills))];
      var location := LocationBadge(jobLocation, workerLocation);
      matches := matches + location;
    }
  }

  /** The location checks of `getJobMatchInfo`, reached once a skill has matched. */
  method LocationBadge(jobLocation: string, workerLocation: string) returns (badges: seq<Badge>)
    ensures badges == LocationBadges(jobLocation, workerLocation)
  {
    badges := [];
    if workerLocation != "" && Includes(jobLocation, workerLocation) {
      badges := badges + [PerfectLocation];
    } else if workerLocation != "" {
      if HasPartialMatch(TrimmedParts(workerLocation, ','), TrimmedParts(jobLocation, ',')) {
        badges := badges + [NearYou];
      }
    }
  }

  // ---------------------------------------------------------------------------
  // Available jobs and applying
  // ---------------------------------------------------------------------------

  function AppliedJobIds(apps: seq<Application>): set<string> {
    set a | a in apps :: a.jobId
  }

  /** `jobs.filter(job => !appliedJobIds.has(job.id))`, in order. */
  function AvailableJobs(jobs: seq<Job>, apps: seq<Application>): seq<Job>
    decreases |jobs|
  {
    if jobs == [] then []
    else (if jobs[0].id !in AppliedJobIds(apps) then [jobs[0]] else []) + AvailableJobs(jobs[1..], apps)
  }

  /** A job is offered exactly when the worker has not applied to it. */
  lemma {:induction false} AvailableJobsMembers(jobs: seq<Job>, apps: seq<Application>)
    ensures forall j :: j in AvailableJobs(jobs, apps) <==> j in jobs && j.id !in AppliedJobIds(apps)
    decreases |jobs|
  {
    if jobs != [] {
      AvailableJobsMembers(jobs[1..], apps);
      assert forall j :: j in jobs <==> j == jobs[0] || j in jobs[1..];
    }
  }

  /** `prevJobs.filter(job => job.id !== jobId)`, in order. */
  function WithoutJob(jobs: seq<Job>, id: string): seq<Job>
    decreases |jobs|
  {
    if jobs == [] then []
    else (if jobs[0].id != id then [jobs[0]] else []) + WithoutJob(jobs[1..], id)
  }

  /** Removing a job keeps exactly the jobs with another id. */
  lemma {:induction false} WithoutJobMembers(jobs: seq<Job>, id: string)
    ensures forall j :: j in WithoutJob(jobs, id) <==> j in jobs && j.id != id
    decreases |jobs|
  {
    if jobs != [] {
      WithoutJobMembers(jobs[1..], id);
      assert forall j :: j in jobs <==> j == jobs[0] || j in jobs[1..];
    }
  }

  /** Removing the applied job locally gives the list a fresh read would filter. */
  lemma {:induction false} LocalApplyMatchesRefetch(jobs: seq<Job>, apps: seq<Application>, app: Application)
    ensures WithoutJob(AvailableJobs(jobs, apps), app.jobId) == AvailableJobs(jobs, [app] + apps)
    decreases |jobs|
  {
    assert AppliedJobIds([app] + apps) == AppliedJobIds(apps) + {app.jobId};
    if jobs != [] {
      LocalApplyMatchesRefetch(jobs[1..], apps, app);
      var head := if jobs[0].id !in AppliedJobIds(apps) then [jobs[0]] else [];
      var rest := AvailableJobs(jobs[1..], apps);
      WithoutJobConcat(head, rest, app.jobId);
    }
  }

  lemma {:induction false} WithoutJobConcat(a: seq<Job>, b: seq<Job>, id: string)
    ensures WithoutJob(a + b, id) == WithoutJob(a, id) + WithoutJob(b, id)
    decreases |a|
  {
    if a != [] {
      ConcatTail(a, b);
      WithoutJobConcat(a[1..], b, id);
    } else {
      assert a + b == b;
    }
  }

  lemma ConcatTail<T>(a: seq<T>, b: seq<T>)
    requires a != []
    ensures (a + b)[0] == a[0] && (a + b)[1..] == a[1..] + b
  {
  }

  /** Removing a job keeps a ranked list ranked. */
  lemma WithoutJobKeepsOrder(s: seq<Job>, id: string, w: Worker)
    requires SortedByScore(s, w)
    ensures SortedByScore(WithoutJob(s, id), w)
  {
    var key := x => JobScore(x, w);
    assert SortedDesc(s, key);
    WithoutJobKeepsDesc(s, id, key);
    var r := WithoutJob(s, id);
    assert forall a, b :: 0 <= a < b < |r| ==> key(r[a]) >= key(r[b]);
  }

  lemma {:induction false} WithoutJobKeepsDesc(s: seq<Job>, id: string, key: Job -> int)
    requires SortedDesc(s, key)
    ensures SortedDesc(WithoutJob(s, id), key)
    decreases |s|
  {
    if s != [] {
      SortedDescTail(s, key);
      WithoutJobKeepsDesc(s[1..], id, key);
      var rest := WithoutJob(s[1..], id);
      WithoutJobMembers(s[1..], id);
      if s[0].id != id {
        forall x | x in rest ensures key(s[0]) >= key(x) {
          var k :| 0 <= k < |s[1..]| && s[1..][k] == x;
          assert s[k + 1] == x;
        }
        SortedDescCons(s[0], rest, key);
      }
    }
  }

  lemma SortedDescTail<T>(s: seq<T>, key: T -> int)
    requires s != [] && SortedDesc(s, key)
    ensures SortedDesc(s[1..], key)
  {
    forall a, b | 0 <= a < b < |s[1..]| ensures key(s[1..][a]) >= key(s[1..][b]) {
      assert s[1..][a] == s[a + 1] && s[1..][b] == s[b + 1];
    }
  }

  lemma SortedDescCons<T>(h: T, rest: seq<T>, key: T -> int)
    requires SortedDesc(rest, key)
    requires forall x :: x in rest ==> key(h) >= key(x)
    ensures SortedDesc([h] + rest, key)
  {
    var r := [h] + rest;
    forall a, b | 0 <= a < b < |r| ensures key(r[a]) >= key(r[b]) {
      assert r[b] == rest[b - 1];
      if a > 0 {
        assert r[a] == rest[a - 1];
      } else {
        assert rest[b - 1] in rest;
      }
    }
  }

  class WorkerDashboard {
    const worker: Worker
    var availableJobs: seq<Job>
    var myApplications: seq<Application>
    var applyingToJob: Option<string>

    /** No job the worker has applied to is on offer. */
    predicate NoAppliedJobOffered()
      reads this
    {
      forall j :: j in availableJobs ==> j.id !in AppliedJobIds(myApplications)
    }

    constructor (worker: Worker)
      ensures this.worker == worker
      ensures availableJobs == [] && myApplications == [] && applyingToJob == None
      ensures NoAppliedJobOffered()
    {
      this.worker := worker;
      availableJobs := [];
      myApplications := [];
      applyingToJob := None;
    }

    /** `fetchJobs` given the rows the two queries return: the worker's applications, and the
        jobs not applied to, ranked. A failed read changes nothing. */
    method FetchJobs(jobs: seq<Job>, apps: seq<Application>, fails: bool)
      modifies this`availableJobs, this`myApplications
      ensures fails ==> availableJobs == old(availableJobs) && myApplications == old(myApplications)
      ensures !fails ==>
        && myApplications == apps
        && multiset(availableJobs) == multiset(AvailableJobs(jobs, apps))
        && SortedByScore(availableJobs, worker)
        && NoAppliedJobOffered()
    {
      if fails {
        return;
      }
      var filtered := AvailableJobs(jobs, apps);
      AvailableJobsMembers(jobs, apps);
      var arr := new Job[|filtered|](i requires 0 <= i < |filtered| => filtered[i]);
      assert arr[..] == filtered;
      SmartSortJobs(arr, worker);
      availableJobs := arr[..];
      myApplications := apps;
      forall j | j in availableJobs ensures j.id !in AppliedJobIds(myApplications) {
        assert j in multiset(availableJobs);
        assert j in filtered;
      }
    }

    /** `handleApply`: a second click on the job being applied to is ignored; otherwise the
        job is marked as in progress and, when the insert succeeds, the new pending
        application is put first and the job leaves the list. */
    method HandleApply(jobId: string, newId: string, fails: bool)
      modifies this`availableJobs, this`myApplications, this`applyingToJob
      ensures old(applyingToJob) == Some(jobId) ==>
        availableJobs == old(availableJobs) && myApplications == old(myApplications) && applyingToJob == old(applyingToJob)
      ensures old(applyingToJob) != Some(jobId) ==> applyingToJob == Some(jobId)
      ensures old(applyingToJob) != Some(jobId) && !fails ==>
        && myApplications == [Application(newId, jobId, worker.id, AppPending)] + old(myApplications)
        && availableJobs == WithoutJob(old(availableJobs), jobId)
      ensures fails ==> availableJobs == old(availableJobs) && myApplications == old(myApplications)
      ensures old(NoAppliedJobOffered()) ==> NoAppliedJobOffered()
      ensures SortedByScore(old(availableJobs), worker) ==> SortedByScore(availableJobs, worker)
    {
      if applyingToJob == Some(jobId) {
        return;
      }
      applyingToJob := Some(jobId);
      if fails {
        return;
      }
      var app := Application(newId, jobId, worker.id, AppPending);
      if SortedByScore(availableJobs, worker) {
        WithoutJobKeepsOrder(availableJobs, jobId, worker);
      }
      WithoutJobMembers(availableJobs, jobId);
      assert AppliedJobIds([app] + myApplications) == AppliedJobIds(myApplications) + {jobId};
      myApplications := [app] + myApplications;
      availableJobs := WithoutJob(availableJobs, jobId);
    }

    /** The deferred reset in the `finally` block. */
    method ApplyTimerFired()
      modifies this`applyingToJob
      ensures applyingToJob == None
    {
      applyingToJob := None;
    }
  }
}
