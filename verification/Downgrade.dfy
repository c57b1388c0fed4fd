/** The chain that limits what a report may recommend: evidence collection and
    maturity (agents/readiness.py), report normalisation (agents/report.py) and
    the evidence critic (agents/evidence_critic.py). Everything a model replies is
    an arbitrary string; GitHub and HuggingFace are arbitrary functions. */
module Downgrade {
  import opened Wrappers
  import opened Basics
  import opened Schemas
  import opened Text

  const PRODUCTION_READY_MIN_STARS: int := 500
  const MAX_LLM_GITHUB_CANDIDATES: nat := 2
  const MAX_LLM_HF_CANDIDATES: nat := 2

  datatype Repo = Repo(url: string, stars: int, hasReleases: bool)

  /** What a repository check returned: the repository, or some other status. */
  datatype RepoCheck = Found(repo: Repo) | NotFound(status: string)

  /** What GitHub answers about a link. */
  datatype RepoReply = Exists(stars: int, hasReleases: bool) | Missing(status: string)

  function CheckSingle(reply: RepoReply, url: string): RepoCheck {
    match reply
    case Exists(stars, hasReleases) => Found(Repo(url, stars, hasReleases))
    case Missing(status) => NotFound(status)
  }

  // ----- evidence collection -----

  /** One round of `if best_repo is None or stars > best stars: best_repo = info`. */
  function Keep(best: Option<Repo>, check: RepoCheck): Option<Repo> {
    if check.Found? && (best.None? || check.repo.stars > best.value.stars)
    then Some(check.repo) else best
  }

  function KeepBest(best: Option<Repo>, checks: seq<RepoCheck>): Option<Repo>
    decreases |checks|
  {
    if checks == [] then best else KeepBest(Keep(best, checks[0]), checks[1..])
  }

  /** r was reported by one of the checks. */
  ghost predicate FoundIn(checks: seq<RepoCheck>, r: Repo) {
    exists i :: 0 <= i < |checks| && checks[i] == Found(r)
  }

  /** The kept repository is one that was found (or the start value) and no found one has more stars. */
  lemma {:induction false} KeepBestIsMaximal(best: Option<Repo>, checks: seq<RepoCheck>)
    ensures var k := KeepBest(best, checks);
      && (k.None? <==> best.None? && forall r :: !FoundIn(checks, r))
      && (k.Some? ==> k == best || FoundIn(checks, k.value))
      && (k.Some? ==> forall r :: FoundIn(checks, r) ==> r.stars <= k.value.stars)
      && (k.Some? && best.Some? ==> best.value.stars <= k.value.stars)
    decreases |checks|
  {
    if checks == [] {
    } else {
      var tail := checks[1..];
      KeepBestIsMaximal(Keep(best, checks[0]), tail);
      forall r ensures FoundIn(checks, r) <==> checks[0] == Found(r) || FoundIn(tail, r) {
        if FoundIn(tail, r) {
          var i :| 0 <= i < |tail| && tail[i] == Found(r);
          assert checks[i + 1] == Found(r);
        }
        if FoundIn(checks, r) && checks[0] != Found(r) {
          var i :| 0 <= i < |checks| && checks[i] == Found(r);
          assert tail[i - 1] == Found(r);
        }
      }
      if checks[0].Found? { assert FoundIn(checks, checks[0].repo); }
    }
  }

  /** The deterministic evidence loop: check every candidate, keep the best one. */
  method CollectGithubEvidence(urls: seq<string>, github: string -> RepoReply)
    returns (best: Option<Repo>, checked: seq<RepoCheck>)
    ensures checked == seq(|urls|, i requires 0 <= i < |urls| => CheckSingle(github(urls[i]), urls[i]))
    ensures best == KeepBest(None, checked)
  {
    best, checked := None, [];
    for k := 0 to |urls|
      invariant checked == seq(k, i requires 0 <= i < k => CheckSingle(github(urls[i]), urls[i]))
      invariant KeepBest(None, checked) == best
    {
      var info := CheckSingle(github(urls[k]), urls[k]);
      KeepBestSnoc(None, checked, info);
      checked := checked + [info];
      best := Keep(best, info);
    }
  }

  lemma {:induction false} KeepBestSnoc(best: Option<Repo>, checks: seq<RepoCheck>, last: RepoCheck)
    ensures KeepBest(best, checks + [last]) == Keep(KeepBest(best, checks), last)
    decreases |checks|
  {
    if checks == [] {
      assert checks + [last] == [last];
      assert KeepBest(Keep(best, last), [last][1..]) == Keep(best, last);
    } else {
      assert (checks + [last])[1..] == checks[1..] + [last];
      KeepBestSnoc(Keep(best, checks[0]), checks[1..], last);
    }
  }

  function Take<T>(s: seq<T>, n: nat): seq<T> {
    if |s| <= n then s else s[..n]
  }

  /** The checks made on behalf of the model: GitHub links not looked at before. */
  function LlmChecks(urls: seq<string>, already: set<string>, normalize: string -> string,
                     github: string -> RepoReply): seq<RepoCheck>
    decreases |urls|
  {
    if urls == [] then []
    else if Contains(urls[0], "github.com/") && normalize(urls[0]) !in already
    then [CheckSingle(github(urls[0]), urls[0])] + LlmChecks(urls[1..], already, normalize, github)
    else LlmChecks(urls[1..], already, normalize, github)
  }

  lemma {:induction false} LlmChecksSnoc(urls: seq<string>, url: string, already: set<string>,
                                         normalize: string -> string, github: string -> RepoReply)
    ensures LlmChecks(urls + [url], already, normalize, github)
         == LlmChecks(urls, already, normalize, github) + LlmChecks([url], already, normalize, github)
    decreases |urls|
  {
    if urls == [] {
      assert urls + [url] == [url];
    } else {
      assert (urls + [url])[1..] == urls[1..] + [url];
      LlmChecksSnoc(urls[1..], url, already, normalize, github);
    }
  }

  /** The model's own candidates can only replace the repository by one with more stars. */
  method VerifyGithubClaims(best: Option<Repo>, claimed: seq<string>, already: set<string>,
                            normalize: string -> string, github: string -> RepoReply)
    returns (verified: Option<Repo>)
    ensures verified
         == KeepBest(best, LlmChecks(Take(claimed, MAX_LLM_GITHUB_CANDIDATES), already, normalize, github))
  {
    verified := best;
    var urls := Take(claimed, MAX_LLM_GITHUB_CANDIDATES);
    for k := 0 to |urls|
      invariant verified == KeepBest(best, LlmChecks(urls[..k], already, normalize, github))
    {
      var url := urls[k];
      assert urls[..k + 1] == urls[..k] + [url];
      LlmChecksSnoc(urls[..k], url, already, normalize, github);
      assert [url][1..] == [];
      if !Contains(url, "github.com/") {
        assert LlmChecks([url], already, normalize, github) == [];
      } else if normalize(url) in already {
        assert LlmChecks([url], already, normalize, github) == [];
      } else {
        var info := CheckSingle(github(url), url);
        assert LlmChecks([url], already, normalize, github) == [info];
        KeepBestSnoc(best, LlmChecks(urls[..k], already, normalize, github), info);
        verified := Keep(verified, info);
      }
    }
    assert urls[..|urls|] == urls;
  }

  /** The HuggingFace model: the deterministic one, else the first claimed one that exists. */
  function VerifiedModel(found: Option<string>, claimed: seq<string>, isModel: string -> bool): Option<string> {
    if Truthy(found) then found else FirstVerified(found, Take(claimed, MAX_LLM_HF_CANDIDATES), isModel)
  }

  function FirstVerified(start: Option<string>, claimed: seq<string>, isModel: string -> bool): Option<string>
    decreases |claimed|
  {
    if claimed == [] then start
    else if isModel(claimed[0]) then Some(claimed[0])
    else FirstVerified(start, claimed[1..], isModel)
  }

  /** A model found on its own stands; otherwise the first of at most two claimed ones that exists. */
  lemma {:induction false} VerifiedModelIsFirst(found: Option<string>, claimed: seq<string>, isModel: string -> bool)
    ensures var v := VerifiedModel(found, claimed, isModel); var tried := Take(claimed, MAX_LLM_HF_CANDIDATES);
      if Truthy(found) || forall i :: 0 <= i < |tried| ==> !isModel(tried[i]) then v == found
      else exists i :: 0 <= i < |tried| && v == Some(tried[i]) && isModel(tried[i]) && forall j :: 0 <= j < i ==> !isModel(tried[j])
  {
    if !Truthy(found) { FirstVerifiedIsFirst(found, Take(claimed, MAX_LLM_HF_CANDIDATES), isModel); }
  }

  lemma {:induction false} FirstVerifiedIsFirst(start: Option<string>, claimed: seq<string>, isModel: string -> bool)
    ensures var v := FirstVerified(start, claimed, isModel);
      if forall i :: 0 <= i < |claimed| ==> !isModel(claimed[i]) then v == start
      else exists i :: 0 <= i < |claimed| && v == Some(claimed[i]) && isModel(claimed[i]) && forall j :: 0 <= j < i ==> !isModel(claimed[j])
    decreases |claimed|
  {
    if claimed != [] && !isModel(claimed[0]) {
      var rest := claimed[1..];
      FirstVerifiedIsFirst(start, rest, isModel);
      if i :| 0 <= i < |rest| && FirstVerified(start, rest, isModel) == Some(rest[i]) && isModel(rest[i])
             && forall j :: 0 <= j < i ==> !isModel(rest[j]) {
        assert claimed[i + 1] == rest[i];
        assert forall j :: 0 <= j < i + 1 ==> !isModel(claimed[j]);
      }
      assert forall i :: 0 <= i < |rest| ==> rest[i] == claimed[i + 1];
    }
  }

  // ----- maturity -----

  function ClaimedMaturity(level: string): Maturity {
    if level == "experimental" then Experimental
    else if level == "production_ready" then ProductionReady
    else ResearchOnly
  }

  predicate HasOpenCode(repo: Option<Repo>, model: Option<string>) {
    (repo.Some? && repo.value.url != "") || Truthy(model)
  }

  /** The three maturity rules, in the order the code applies them. */
  function NormalizeReadiness(claimedLevel: string, repo: Option<Repo>, model: Option<string>)
    : ProductionReadiness
  {
    var open := HasOpenCode(repo, model);
    var m0 := ClaimedMaturity(claimedLevel);
    var m1 := if !open && m0 in {Experimental, ProductionReady} then ResearchOnly else m0;
    var stars := if repo.Some? then repo.value.stars else 0;
    var releases := repo.Some? && repo.value.hasReleases;
    var m2 := if open && m1 == ProductionReady
                 && (stars < PRODUCTION_READY_MIN_STARS || !(releases || Truthy(model)))
              then Experimental else m1;
    var m3 := if open && m2 == ResearchOnly then Experimental else m2;
    ProductionReadiness(open, if repo.Some? then Some(repo.value.url) else None, model, m3)
  }

  /** Research-only exactly without open code; production-ready exactly when claimed and backed by
      open code, 500 stars and releases or a model; experimental otherwise. */
  lemma {:induction false} MaturityIff(claimedLevel: string, repo: Option<Repo>, model: Option<string>)
    ensures var m := NormalizeReadiness(claimedLevel, repo, model).maturity;
      && (m == ResearchOnly <==> !HasOpenCode(repo, model))
      && (m == ProductionReady <==>
           && claimedLevel == "production_ready" && HasOpenCode(repo, model)
           && repo.Some? && repo.value.stars >= PRODUCTION_READY_MIN_STARS
           && (repo.value.hasReleases || Truthy(model)))
  {}

  // ----- report normalisation -----

  datatype ReportClaims = ReportClaims(executiveSummary: string, difficulty: string, action: string)

  function ClaimedDifficulty(s: string): Difficulty {
    var d := Strip(s);
    if d == "trivial" then Trivial else if d == "moderate" then Moderate
    else if d == "significant" then Significant else ResearchOnlyDifficulty
  }

  function ClaimedAction(s: string): Action {
    var a := Strip(s);
    if a == "implement_now" then ImplementNow else if a == "prototype" then Prototype
    else if a == "watch" then Watch else Skip
  }

  /** What the normaliser reassigns, step after step. */
  datatype Verdict = Verdict(action: Action, difficulty: Difficulty)

  predicate Building(a: Action) { a == ImplementNow || a == Prototype }

  function CapMissingExtraction(v: Verdict, extraction: Option<MethodExtraction>): Verdict {
    if extraction.Some? then v else Verdict(Skip, ResearchOnlyDifficulty)
  }

  function CapMissingReadiness(v: Verdict, readiness: Option<ProductionReadiness>): Verdict {
    if readiness.Some? then v
    else Verdict(if Building(v.action) then Watch else v.action, ResearchOnlyDifficulty)
  }

  function CapResearchOnly(v: Verdict, readiness: Option<ProductionReadiness>): Verdict {
    if readiness.None? || readiness.value.maturity != ResearchOnly then v
    else Verdict(if Building(v.action) then Watch else v.action, ResearchOnlyDifficulty)
  }

  function CapExperimental(v: Verdict, readiness: Option<ProductionReadiness>): Verdict {
    if readiness.None? || readiness.value.maturity != Experimental then v
    else Verdict(if v.action == ImplementNow then Prototype else v.action,
                 if v.difficulty == Trivial then Moderate else v.difficulty)
  }

  function CapNoBenchmarks(v: Verdict, benchmarks: seq<BenchmarkResult>): Verdict {
    if benchmarks == [] && v.action == ImplementNow then v.(action := Prototype) else v
  }

  function NormalizeReport(claims: ReportClaims, extraction: Option<MethodExtraction>,
                           benchmarks: seq<BenchmarkResult>, readiness: Option<ProductionReadiness>)
    : EngineerReport
  {
    var v0 := Verdict(ClaimedAction(claims.action), ClaimedDifficulty(claims.difficulty));
    var v1 := CapMissingExtraction(v0, extraction);
    var v2 := CapMissingReadiness(v1, readiness);
    var v3 := CapResearchOnly(v2, readiness);
    var v4 := CapExperimental(v3, readiness);
    var v5 := CapNoBenchmarks(v4, benchmarks);
    var summary := Strip(claims.executiveSummary);
    EngineerReport(if summary != "" then summary else "Automated summary unavailable.",
                   v5.difficulty, v5.action)
  }

  function Rank(a: Action): int {
    match a
    case Skip => 0
    case Watch => 1
    case Prototype => 2
    case ImplementNow => 3
  }

  predicate Unproven(readiness: Option<ProductionReadiness>) {
    readiness.None? || readiness.value.maturity == ResearchOnly
  }

  /** The strongest recommendation the evidence allows. */
  function Ceiling(extraction: Option<MethodExtraction>, benchmarks: seq<BenchmarkResult>,
                   readiness: Option<ProductionReadiness>): Action
  {
    if extraction.None? then Skip
    else if Unproven(readiness) then Watch
    else if readiness.value.maturity == Experimental || benchmarks == [] then Prototype
    else ImplementNow
  }

  /** The recommendation is the weaker of what was claimed and what the evidence allows, and the
      critic leaves it there; the difficulty is raised by weak evidence and never lowered. */
  lemma {:induction false} RecommendationIsCapped(claims: ReportClaims, extraction: Option<MethodExtraction>,
                                 benchmarks: seq<BenchmarkResult>, readiness: Option<ProductionReadiness>)
    ensures var report := NormalizeReport(claims, extraction, benchmarks, readiness);
      var claimed := ClaimedDifficulty(claims.difficulty);
      && Rank(report.action) == Min(Rank(ClaimedAction(claims.action)), Rank(Ceiling(extraction, benchmarks, readiness)))
      && Critic(report, benchmarks, readiness).0.action == report.action
      && report.difficulty == (
           if extraction.None? || Unproven(readiness) then ResearchOnlyDifficulty
           else if readiness.value.maturity == Experimental && claimed == Trivial then Moderate
           else claimed)
  {}

  // ----- the evidence critic -----

  /** The warnings the critic can add to the run. */
  datatype CriticNote = NoBenchmarks | NoReadiness | WeakMaturity

  /** What the critic leaves as the report, with the warnings it adds. */
  function Critic(report: EngineerReport, benchmarks: seq<BenchmarkResult>, readiness: Option<ProductionReadiness>)
    : (EngineerReport, seq<CriticNote>)
  {
    var unsupported := benchmarks == [] && report.action == ImplementNow;
    var r1 := if unsupported then report.(action := Prototype) else report;
    var w1 := if unsupported then [NoBenchmarks] else [];
    if !Building(r1.action) || (readiness.Some? && readiness.value.maturity != ResearchOnly) then (r1, w1)
    else (r1.(action := Watch, difficulty := ResearchOnlyDifficulty),
          w1 + [if readiness.None? then NoReadiness else WeakMaturity])
  }

  /** The critic as it runs: a copy of the report is updated step by step. It changes
      something exactly when it warns, it never raises a recommendation, and what it
      leaves is never an unsupported implement_now or prototype. */
  method ReviewReport(report: EngineerReport, benchmarks: seq<BenchmarkResult>,
                      readiness: Option<ProductionReadiness>)
    returns (updated: EngineerReport, warnings: seq<CriticNote>, changed: bool)
    ensures (updated, warnings) == Critic(report, benchmarks, readiness)
    ensures changed <==> warnings != []
    ensures changed <==> updated != report
    ensures changed ==> Building(report.action) && updated.action in {Prototype, Watch}
    ensures benchmarks == [] ==> updated.action != ImplementNow
    ensures readiness.None? || readiness.value.maturity == ResearchOnly ==> !Building(updated.action)
  {
    updated, warnings, changed := report, [], false;
    if benchmarks == [] && updated.action == ImplementNow {
      updated := updated.(action := Prototype);
      warnings, changed := warnings + [NoBenchmarks], true;
      assert warnings == [NoBenchmarks];
    }
    if readiness.None? && Building(updated.action) {
      updated := updated.(action := Watch, difficulty := ResearchOnlyDifficulty);
      warnings, changed := warnings + [NoReadiness], true;
    }
    if readiness.Some? && readiness.value.maturity == ResearchOnly && Building(updated.action) {
      updated := updated.(action := Watch, difficulty := ResearchOnlyDifficulty);
      warnings, changed := warnings + [WeakMaturity], true;
    }
  }

  /** The critic accepts every report the normaliser can produce, unchanged and without a warning. */
  lemma {:induction false} CriticAcceptsNormalizedReports(claims: ReportClaims, extraction: Option<MethodExtraction>,
                                       benchmarks: seq<BenchmarkResult>, readiness: Option<ProductionReadiness>)
    ensures var report := NormalizeReport(claims, extraction, benchmarks, readiness);
      Critic(report, benchmarks, readiness) == (report, [])
  {
  }

  /** Everything the chain is given about one paper. */
  datatype Evidence = Evidence(
    candidateUrls: seq<string>, modelFound: Option<string>,
    extraction: Option<MethodExtraction>, benchmarks: seq<BenchmarkResult>)

  datatype Replies = Replies(
    maturityLevel: string, codeUrls: seq<string>, hfModels: seq<string>, report: ReportClaims)

  function DeterministicChecks(e: Evidence, github: string -> RepoReply): seq<RepoCheck> {
    seq(|e.candidateUrls|, i requires 0 <= i < |e.candidateUrls| => CheckSingle(github(e.candidateUrls[i]), e.candidateUrls[i]))
  }

  function AllChecks(e: Evidence, r: Replies, normalize: string -> string, github: string -> RepoReply)
    : seq<RepoCheck>
  {
    var already := set u | u in e.candidateUrls :: normalize(u);
    DeterministicChecks(e, github) + LlmChecks(Take(r.codeUrls, MAX_LLM_GITHUB_CANDIDATES), already, normalize, github)
  }

  function FinalRepo(e: Evidence, r: Replies, normalize: string -> string, github: string -> RepoReply): Option<Repo> {
    var already := set u | u in e.candidateUrls :: normalize(u);
    KeepBest(KeepBest(None, DeterministicChecks(e, github)),
             LlmChecks(Take(r.codeUrls, MAX_LLM_GITHUB_CANDIDATES), already, normalize, github))
  }

  /** Collect, verify, normalise readiness, normalise the report, review it. */
  function Recommend(e: Evidence, r: Replies, normalize: string -> string, github: string -> RepoReply,
                     modelExists: string -> bool): EngineerReport
  {
    var readiness := NormalizeReadiness(r.maturityLevel, FinalRepo(e, r, normalize, github),
                                        VerifiedModel(e.modelFound, r.hfModels, modelExists));
    Critic(NormalizeReport(r.report, e.extraction, e.benchmarks, Some(readiness)),
           e.benchmarks, Some(readiness)).0
  }

  lemma {:induction false} KeepBestConcat(best: Option<Repo>, a: seq<RepoCheck>, b: seq<RepoCheck>)
    ensures KeepBest(best, a + b) == KeepBest(KeepBest(best, a), b)
    decreases |a|
  {
    if a == [] {
      assert a + b == b;
    } else {
      assert (a + b)[1..] == a[1..] + b;
      KeepBestConcat(Keep(best, a[0]), a[1..], b);
    }
  }

  /** `implement_now` survives the whole chain exactly when the report model asked for it, the
      readiness model claimed production_ready, a method and benchmarks were extracted, and the
      most starred of all checked repositories has 500 stars and releases or a verified model. */
  lemma {:induction false} ImplementNowIff(e: Evidence, r: Replies, normalize: string -> string, github: string -> RepoReply,
                        modelExists: string -> bool)
    ensures var model := VerifiedModel(e.modelFound, r.hfModels, modelExists);
      var repo := FinalRepo(e, r, normalize, github);
      Recommend(e, r, normalize, github, modelExists).action == ImplementNow
      <==> && Strip(r.report.action) == "implement_now"
           && r.maturityLevel == "production_ready"
           && e.extraction.Some? && e.benchmarks != []
           && repo.Some? && repo.value.stars >= 500
           && (repo.value.hasReleases || Truthy(model))
           && (repo.value.url != "" || Truthy(model))
    ensures var repo := FinalRepo(e, r, normalize, github);
      && (repo.None? <==> forall other :: !FoundIn(AllChecks(e, r, normalize, github), other))
      && (repo.Some? ==> && FoundIn(AllChecks(e, r, normalize, github), repo.value)
                         && forall other :: FoundIn(AllChecks(e, r, normalize, github), other)
                                        ==> other.stars <= repo.value.stars)
  {
    var already := set u | u in e.candidateUrls :: normalize(u);
    KeepBestConcat(None, DeterministicChecks(e, github),
                   LlmChecks(Take(r.codeUrls, MAX_LLM_GITHUB_CANDIDATES), already, normalize, github));
    KeepBestIsMaximal(None, AllChecks(e, r, normalize, github));
  }

  /** The readiness half: maturity says research_only exactly when nothing was verified. */
  lemma {:induction false} ResearchOnlyIffNothingFound(e: Evidence, r: Replies, normalize: string -> string,
                                    github: string -> RepoReply, modelExists: string -> bool)
    requires forall u :: u in e.candidateUrls ==> u != ""
    ensures var model := VerifiedModel(e.modelFound, r.hfModels, modelExists);
      NormalizeReadiness(r.maturityLevel, FinalRepo(e, r, normalize, github), model).maturity == ResearchOnly
      <==> (forall other :: !FoundIn(AllChecks(e, r, normalize, github), other)) && !Truthy(model)
  {
    var repo, model := FinalRepo(e, r, normalize, github), VerifiedModel(e.modelFound, r.hfModels, modelExists);
    assert (repo.None? <==> forall other :: !FoundIn(AllChecks(e, r, normalize, github), other))
        && (repo.Some? ==> FoundIn(AllChecks(e, r, normalize, github), repo.value)) by {
      ImplementNowIff(e, r, normalize, github, modelExists);
    }
    assert NormalizeReadiness(r.maturityLevel, repo, model).maturity == ResearchOnly <==> !HasOpenCode(repo, model);
    if repo.Some? {
      FoundReposHaveUrls(e, r, normalize, github, repo.value);
    }
  }

  lemma {:induction false} FoundReposHaveUrls(e: Evidence, r: Replies, normalize: string -> string,
                           github: string -> RepoReply, repo: Repo)
    requires forall u :: u in e.candidateUrls ==> u != ""
    requires FoundIn(AllChecks(e, r, normalize, github), repo)
    ensures repo.url != ""
  {
    var all := AllChecks(e, r, normalize, github);
    var i :| 0 <= i < |all| && all[i] == Found(repo);
    if i < |e.candidateUrls| {
      assert e.candidateUrls[i] in e.candidateUrls;
      assert all[i] == CheckSingle(github(e.candidateUrls[i]), e.candidateUrls[i]);
    } else {
      var already := set u | u in e.candidateUrls :: normalize(u);
      LlmChecksAreGithub(Take(r.codeUrls, MAX_LLM_GITHUB_CANDIDATES), already, normalize, github,
                         i - |e.candidateUrls|);
    }
  }

  lemma {:induction false} LlmChecksAreGithub(urls: seq<string>, already: set<string>,
      normalize: string -> string, github: string -> RepoReply, i: nat)
    requires i < |LlmChecks(urls, already, normalize, github)|
    ensures exists u :: u != "" && LlmChecks(urls, already, normalize, github)[i] == CheckSingle(github(u), u)
    decreases |urls|
  {
    if Contains(urls[0], "github.com/") && normalize(urls[0]) !in already {
      if i == 0 {
        assert urls[0] != "";
      } else {
        LlmChecksAreGithub(urls[1..], already, normalize, github, i - 1);
      }
    } else {
      LlmChecksAreGithub(urls[1..], already, normalize, github, i);
    }
  }
}
