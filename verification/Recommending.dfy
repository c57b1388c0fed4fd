/** What a paper is recommended for, in terms of the links that were checked, of what GitHub and
    HuggingFace answer about them, and of what the models ask for (agents/readiness.py:271-679,
    agents/report.py:273-371, agents/evidence_critic.py:100-189). */
module Recommending {
  import opened Wrappers
  import opened Basics
  import opened Schemas
  import opened Text
  import opened Downgrade

  // ----- the repository -----

  /** A link of the model that is looked up: to GitHub, and not one of the paper's own links. */
  predicate FreshLink(e: Evidence, normalize: string -> string, url: string) {
    Contains(url, "github.com/") && forall i :: 0 <= i < |e.candidateUrls| ==> normalize(e.candidateUrls[i]) != normalize(url)
  }

  function FreshLinks(e: Evidence, normalize: string -> string, urls: seq<string>): seq<string> {
    if urls == [] then []
    else (if FreshLink(e, normalize, urls[0]) then [urls[0]] else []) + FreshLinks(e, normalize, urls[1..])
  }

  /** All links that are looked up, in order: the paper's own, then fresh ones of the first two the model gave. */
  function LookedUp(e: Evidence, r: Replies, normalize: string -> string): seq<string> {
    e.candidateUrls + FreshLinks(e, normalize, if |r.codeUrls| <= 2 then r.codeUrls else r.codeUrls[..2])
  }

  /** Link i leads to the most starred repository, the first one of these. */
  predicate Starred(urls: seq<string>, github: string -> RepoReply, i: int) {
    && 0 <= i < |urls| && github(urls[i]).Exists?
    && (forall j :: 0 <= j < |urls| && github(urls[j]).Exists? ==> github(urls[j]).stars <= github(urls[i]).stars)
    && (forall j :: 0 <= j < i && github(urls[j]).Exists? ==> github(urls[j]).stars < github(urls[i]).stars)
  }

  function ChecksOf(urls: seq<string>, github: string -> RepoReply): (r: seq<RepoCheck>)
    ensures |r| == |urls|
    ensures forall i :: 0 <= i < |r| ==> r[i] == CheckSingle(github(urls[i]), urls[i])
  {
    seq(|urls|, i requires 0 <= i < |urls| => CheckSingle(github(urls[i]), urls[i]))
  }

  lemma {:induction false} LlmChecksAreFresh(e: Evidence, normalize: string -> string, github: string -> RepoReply, urls: seq<string>)
    ensures LlmChecks(urls, set u | u in e.candidateUrls :: normalize(u), normalize, github)
      == ChecksOf(FreshLinks(e, normalize, urls), github)
  {
    if urls != [] {
      var already := set u | u in e.candidateUrls :: normalize(u);
      LlmChecksAreFresh(e, normalize, github, urls[1..]);
      assert normalize(urls[0]) in already
        <==> exists i :: 0 <= i < |e.candidateUrls| && normalize(e.candidateUrls[i]) == normalize(urls[0]);
      var rest := FreshLinks(e, normalize, urls[1..]);
      assert ChecksOf([urls[0]] + rest, github) == [CheckSingle(github(urls[0]), urls[0])] + ChecksOf(rest, github);
      assert [] + rest == rest;
    }
  }

  lemma {:induction false} ChecksConcat(a: seq<string>, b: seq<string>, github: string -> RepoReply)
    ensures ChecksOf(a + b, github) == ChecksOf(a, github) + ChecksOf(b, github)
  {}

  lemma {:induction false} ChecksAreLookedUp(e: Evidence, r: Replies, normalize: string -> string, github: string -> RepoReply)
    ensures FinalRepo(e, r, normalize, github) == KeepBest(None, ChecksOf(LookedUp(e, r, normalize), github))
  {
    var claimed := Take(r.codeUrls, MAX_LLM_GITHUB_CANDIDATES);
    var links := FreshLinks(e, normalize, claimed);
    LlmChecksAreFresh(e, normalize, github, claimed);
    ChecksConcat(e.candidateUrls, links, github);
    assert DeterministicChecks(e, github) == ChecksOf(e.candidateUrls, github);
    KeepBestConcat(None, ChecksOf(e.candidateUrls, github), ChecksOf(links, github));
  }

  /** The repository kept is the one of the first most starred link, and none if no link exists. */
  lemma {:induction false} KeptIsStarred(urls: seq<string>, github: string -> RepoReply) returns (i: int)
    ensures var kept := KeepBest(None, ChecksOf(urls, github));
      if exists j :: 0 <= j < |urls| && github(urls[j]).Exists?
      then Starred(urls, github, i) && kept == Some(Repo(urls[i], github(urls[i]).stars, github(urls[i]).hasReleases))
      else kept == None
  {
    if urls == [] {
      i := 0;
    } else {
      var n := |urls| - 1;
      var k := KeptIsStarred(urls[..n], github);
      var last := CheckSingle(github(urls[n]), urls[n]);
      assert ChecksOf(urls, github) == ChecksOf(urls[..n], github) + [last];
      KeepBestSnoc(None, ChecksOf(urls[..n], github), last);
      assert forall j :: 0 <= j < n ==> urls[..n][j] == urls[j];
      if j :| 0 <= j < n && github(urls[j]).Exists? {
        assert github(urls[..n][j]).Exists?;
        i := if github(urls[n]).Exists? && github(urls[n]).stars > github(urls[k]).stars then n else k;
      } else {
        i := n;
      }
    }
  }

  lemma {:induction false} StarredIsOne(urls: seq<string>, github: string -> RepoReply, i: int, j: int)
    requires Starred(urls, github, i) && Starred(urls, github, j)
    ensures i == j
  {}

  // ----- the model -----

  /** The i-th of the first two model links is the first that exists. */
  predicate FirstModel(models: seq<string>, isModel: string -> bool, i: int) {
    0 <= i < |models| && i < 2 && isModel(models[i]) && forall j :: 0 <= j < i ==> !isModel(models[j])
  }

  ghost predicate HasModel(e: Evidence, r: Replies, modelExists: string -> bool) {
    Truthy(e.modelFound) || exists i :: FirstModel(r.hfModels, modelExists, i) && r.hfModels[i] != ""
  }

  lemma {:induction false} ModelIff(e: Evidence, r: Replies, modelExists: string -> bool)
    ensures Truthy(VerifiedModel(e.modelFound, r.hfModels, modelExists)) <==> HasModel(e, r, modelExists)
  {
    var tried := Take(r.hfModels, MAX_LLM_HF_CANDIDATES);
    VerifiedModelIsFirst(e.modelFound, r.hfModels, modelExists);
    assert forall i :: 0 <= i < |tried| ==> tried[i] == r.hfModels[i];
    if !Truthy(e.modelFound) && !(forall i :: 0 <= i < |tried| ==> !modelExists(tried[i])) {
      var i :| 0 <= i < |tried| && VerifiedModel(e.modelFound, r.hfModels, modelExists) == Some(tried[i]) && modelExists(tried[i])
        && forall j :: 0 <= j < i ==> !modelExists(tried[j]);
      assert FirstModel(r.hfModels, modelExists, i);
    }
  }

  // ----- the recommendation -----

  /** Open code: some link exists whose repository is kept, or a model does. */
  ghost predicate OpenCode(e: Evidence, r: Replies, normalize: string -> string, github: string -> RepoReply, modelExists: string -> bool) {
    HasModel(e, r, modelExists)
    || exists i :: Starred(LookedUp(e, r, normalize), github, i) && LookedUp(e, r, normalize)[i] != ""
  }

  /** The most starred repository has 500 stars, and releases or a model beside it. */
  ghost predicate Established(e: Evidence, r: Replies, normalize: string -> string, github: string -> RepoReply, modelExists: string -> bool) {
    exists i :: Starred(LookedUp(e, r, normalize), github, i)
      && var reply := github(LookedUp(e, r, normalize)[i]);
         reply.stars >= 500 && (reply.hasReleases || HasModel(e, r, modelExists))
  }

  ghost predicate Production(e: Evidence, r: Replies, normalize: string -> string, github: string -> RepoReply, modelExists: string -> bool) {
    && r.maturityLevel == "production_ready"
    && OpenCode(e, r, normalize, github, modelExists) && Established(e, r, normalize, github, modelExists)
  }

  /** The readiness the chain settles on. */
  function Settled(e: Evidence, r: Replies, normalize: string -> string, github: string -> RepoReply, modelExists: string -> bool)
    : ProductionReadiness
  {
    NormalizeReadiness(r.maturityLevel, FinalRepo(e, r, normalize, github), VerifiedModel(e.modelFound, r.hfModels, modelExists))
  }

  /** It knows of open code exactly if there is some, links the most starred repository, and is
      research-only without open code, production-ready where that is claimed and established. */
  lemma {:induction false} ReadinessMeans(e: Evidence, r: Replies, normalize: string -> string, github: string -> RepoReply,
                                          modelExists: string -> bool)
    ensures var p := Settled(e, r, normalize, github, modelExists); var urls := LookedUp(e, r, normalize);
      && (p.hasOpenCode <==> OpenCode(e, r, normalize, github, modelExists))
      && (Truthy(p.huggingfaceModel) <==> HasModel(e, r, modelExists))
      && (forall i :: Starred(urls, github, i) ==> p.codeUrl == Some(urls[i]))
      && ((forall i :: !Starred(urls, github, i)) ==> p.codeUrl == None)
      && (p.maturity == ResearchOnly <==> !OpenCode(e, r, normalize, github, modelExists))
      && (p.maturity == ProductionReady <==> Production(e, r, normalize, github, modelExists))
  {
    var urls := LookedUp(e, r, normalize);
    ChecksAreLookedUp(e, r, normalize, github);
    ModelIff(e, r, modelExists);
    var k := KeptIsStarred(urls, github);
    MaturityIff(r.maturityLevel, FinalRepo(e, r, normalize, github), VerifiedModel(e.modelFound, r.hfModels, modelExists));
    forall i | Starred(urls, github, i) ensures i == k {
      assert github(urls[i]).Exists?;
      StarredIsOne(urls, github, i, k);
    }
  }

  /** The recommendation of the whole chain: at most what was asked for, nothing without an extracted
      method, at most to watch without open code, and to implement only with benchmarks and an
      established repository where production readiness was claimed. */
  lemma {:induction false} RecommendationMeans(e: Evidence, r: Replies, normalize: string -> string, github: string -> RepoReply,
                                               modelExists: string -> bool)
    ensures var action := Recommend(e, r, normalize, github, modelExists).action; var asked := Strip(r.report.action);
      var open := OpenCode(e, r, normalize, github, modelExists);
      && (action == ImplementNow <==>
            asked == "implement_now" && e.extraction.Some? && e.benchmarks != [] && Production(e, r, normalize, github, modelExists))
      && (action in {ImplementNow, Prototype} <==> asked in {"implement_now", "prototype"} && e.extraction.Some? && open)
      && (action == Skip <==> asked !in {"implement_now", "prototype", "watch"} || e.extraction.None?)
  {
    ReadinessMeans(e, r, normalize, github, modelExists);
    RecommendationIsCapped(r.report, e.extraction, e.benchmarks, Some(Settled(e, r, normalize, github, modelExists)));
  }

  /** Its difficulty: the claimed one, but not trivial for what is not production-ready, and
      research-only without a method or open code; and its summary. */
  lemma {:induction false} DifficultyMeans(e: Evidence, r: Replies, normalize: string -> string, github: string -> RepoReply,
                                           modelExists: string -> bool)
    ensures var report := Recommend(e, r, normalize, github, modelExists); var asked := Strip(r.report.difficulty);
      && report.difficulty == (
           if e.extraction.None? || !OpenCode(e, r, normalize, github, modelExists) then ResearchOnlyDifficulty
           else if asked == "trivial" then (if Production(e, r, normalize, github, modelExists) then Trivial else Moderate)
           else if asked == "moderate" then Moderate
           else if asked == "significant" then Significant
           else ResearchOnlyDifficulty)
      && report.executiveSummary
         == (if IsBlank(r.report.executiveSummary) then "Automated summary unavailable." else Strip(r.report.executiveSummary))
  {
    var readiness := Some(Settled(e, r, normalize, github, modelExists));
    ReadinessMeans(e, r, normalize, github, modelExists);
    RecommendationIsCapped(r.report, e.extraction, e.benchmarks, readiness);
    CriticAcceptsNormalizedReports(r.report, e.extraction, e.benchmarks, readiness);
    StripOfBlank(r.report.executiveSummary);
  }
}
