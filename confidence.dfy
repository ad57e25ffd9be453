/**
  The confidence scorer (`compute_confidence`, main.py:91-99).

  The score is a weighted sum of four 0/1 indicators with weights 0.4, 0.3,
  0.2 and 0.1. Every weight is a whole number of tenths, so the score is
  modelled exactly as a natural number of tenths; `Confidence` divides it by
  ten. The float arithmetic and `round(score, 2)` of the source are replaced
  by this exact value.
 */
module Scoring {
  import opened Records
  import opened Text

  /** The `signals` part of the Ideal Customer Profile. */
  datatype IcpSignals = IcpSignals(techStack: Option<seq<string>>)

  /**
    The Ideal Customer Profile as far as the scorer reads it: the acceptable
    industry labels and `signals.tech_stack`. (Its `keywords` are read only by
    the job-postings adapter.)
   */
  datatype Icp = Icp(industry: Option<seq<string>>, signals: Option<IcpSignals>)

  /** The technologies the tech indicator looks for (main.py:97). */
  const TechKeywords: seq<string> := ["AWS", "Snowflake"]

  /**
    `any(ind.lower() in hay for ind in inds)`: holds iff some label of `inds`,
    lower-cased, occurs in `hay`.
   */
  function AnyIndustryIn(inds: seq<string>, hay: string): (r: bool)
    ensures r <==> exists i :: 0 <= i < |inds| && IsSubstring(Lower(inds[i]), hay)
  {
    if inds == [] then false
    else
      assert forall i :: 1 <= i < |inds| ==> inds[i] == inds[1..][i - 1];
      IsSubstring(Lower(inds[0]), hay) || AnyIndustryIn(inds[1..], hay)
  }

  /**
    The industry indicator (main.py:92-93); a missing industry reads as `""`.
    An ICP without industry labels matches nothing.
   */
  function IndustryMatch(company: Record, icp: Icp): (r: bool)
    ensures r ==> icp.industry.Some? && icp.industry.value != []
  {
    AnyIndustryIn(icp.industry.GetOr([]), Lower(company.industry.GetOr("")))
  }

  /**
    A signal flag that is present and true; an absent `signals` field or key
    reads as false (main.py:94-95).
   */
  function SignalSet(company: Record, name: string): (r: bool)
    ensures r ==> company.signals.Some? && name in company.signals.value
    ensures company.signals.None? ==> !r
  {
    name in SignalsOf(company) && SignalsOf(company)[name]
  }

  /** `signals.get("new_funding")`: false unless the record carries that flag set. */
  function FundingSignal(company: Record): (r: bool)
    ensures r ==> company.signals.Some? && company.signals.value["new_funding" := true] == company.signals.value
  {
    SignalSet(company, "new_funding")
  }

  /** `signals.get("recent_hiring")`: false unless the record carries that flag set. */
  function HiringSignal(company: Record): (r: bool)
    ensures r ==> company.signals.Some? && company.signals.value["recent_hiring" := true] == company.signals.value
  {
    SignalSet(company, "recent_hiring")
  }

  /**
    The tech indicator (main.py:96-97): does a fixed keyword occur in the ICP's
    tech stack joined with spaces? Reading `icp["signals"]["tech_stack"]`
    raises a `KeyError` when either key is absent.
   */
  function TechMatch(icp: Icp): (r: Result<bool>)
    ensures r.Err? <==> icp.signals.None? || icp.signals.value.techStack.None?
    ensures icp.signals.Some? && icp.signals.value.techStack == Some([]) ==> r == Ok(false)
  {
    if icp.signals.None? then Err(KeyError("signals"))
    else if icp.signals.value.techStack.None? then Err(KeyError("tech_stack"))
    else
      var joined := Join(" ", icp.signals.value.techStack.value);
      Ok(IsSubstring(TechKeywords[0], joined) || IsSubstring(TechKeywords[1], joined))
  }

  function Indicator(b: bool): nat {
    if b then 1 else 0
  }

  /**
    The score in tenths (main.py:98). It lies in 0..10, is 10 only when all
    four indicators hold and 0 only when none does; it fails only where the
    tech indicator raises.
   */
  function ConfidenceTenths(company: Record, icp: Icp): (r: Result<nat>)
    ensures r.Err? <==> icp.signals.None? || icp.signals.value.techStack.None?
    ensures r.Err? ==> r.error == KeyError(if icp.signals.None? then "signals" else "tech_stack")
    ensures r.Ok? ==> r.value <= 10
    ensures r.Ok? ==> (r.value == 10 <==> IndustryMatch(company, icp) && FundingSignal(company) && HiringSignal(company) && TechMatch(icp).value)
    ensures r.Ok? ==> (r.value == 0 <==> !IndustryMatch(company, icp) && !FundingSignal(company) && !HiringSignal(company) && !TechMatch(icp).value)
  {
    match TechMatch(icp)
    case Err(e) => Err(e)
    case Ok(tech) =>
      Ok(4 * Indicator(IndustryMatch(company, icp)) + 3 * Indicator(FundingSignal(company))
         + 2 * Indicator(HiringSignal(company)) + Indicator(tech))
  }

  /** `compute_confidence(company, icp)`: the score as a fraction in [0, 1]. */
  function Confidence(company: Record, icp: Icp): (r: Result<real>)
    ensures r.Err? <==> TechMatch(icp).Err?
    ensures r.Ok? ==> 0.0 <= r.value <= 1.0
    ensures r.Ok? ==> (r.value == 1.0 <==> IndustryMatch(company, icp) && FundingSignal(company) && HiringSignal(company) && TechMatch(icp).value)
  {
    match ConfidenceTenths(company, icp)
    case Err(e) => Err(e)
    case Ok(t) => Ok(t as real / 10.0)
  }

  /**
    The industry indicator holds exactly when some ICP industry, lower-cased,
    occurs at some position of the record's lower-cased industry.
   */
  lemma {:induction false} IndustryMatchMeaning(company: Record, icp: Icp)
    ensures var inds, hay := icp.industry.GetOr([]), Lower(company.industry.GetOr(""));
      IndustryMatch(company, icp) <==> exists i, p :: 0 <= i < |inds| && OccursAt(Lower(inds[i]), hay, p)
  {
    var inds, hay := icp.industry.GetOr([]), Lower(company.industry.GetOr(""));
    forall i | 0 <= i < |inds| {
      SubstringAt(Lower(inds[i]), hay);
    }
  }

  /** A record without an industry matches only an empty ICP industry label. */
  lemma MissingIndustryMatchesOnlyEmpty(company: Record, icp: Icp)
    requires company.industry.None?
    ensures IndustryMatch(company, icp) <==> exists i :: 0 <= i < |icp.industry.GetOr([])| && icp.industry.GetOr([])[i] == ""
  {
    var inds := icp.industry.GetOr([]);
    assert Lower("") == "";
    forall i | 0 <= i < |inds|
      ensures IsSubstring(Lower(inds[i]), "") <==> inds[i] == ""
    {
      SubstringOfEmpty(Lower(inds[i]));
      LowerEmpty(inds[i]);
    }
  }

  /**
    The tech indicator depends only on the ICP: it holds exactly when one of
    the tech-stack entries itself contains "AWS" or "Snowflake" (neither
    keyword has a space, so joining cannot create a match).
   */
  lemma TechMatchMeaning(icp: Icp)
    requires TechMatch(icp).Ok?
    ensures var ts := icp.signals.value.techStack.value;
      TechMatch(icp).value <==> exists k :: 0 <= k < |ts| && (IsSubstring("AWS", ts[k]) || IsSubstring("Snowflake", ts[k]))
  {
    var ts := icp.signals.value.techStack.value;
    SubstringOfJoin("AWS", ts);
    SubstringOfJoin("Snowflake", ts);
  }

  /**
    Worked example: ICP industry ["Software"], tech stack ["AWS"]; a record in
    "Enterprise Software" with `new_funding` true and `recent_hiring` false
    scores 4 + 3 + 0 + 1 = 8 tenths.
   */
  lemma ExampleScoresEight(company: Record)
    requires company.industry == Some("Enterprise Software")
    requires company.signals == Some(map["new_funding" := true, "recent_hiring" := false])
    ensures ConfidenceTenths(company, Icp(Some(["Software"]), Some(IcpSignals(Some(["AWS"]))))) == Ok(8)
  {
    var icp := Icp(Some(["Software"]), Some(IcpSignals(Some(["AWS"]))));
    var hay := Lower("Enterprise Software");
    assert OccursAt(Lower("Software"), hay, 11);
    SubstringAt(Lower("Software"), hay);
    assert IndustryMatch(company, icp);
    assert OccursAt("AWS", "AWS", 0);
    SubstringAt("AWS", "AWS");
  }
}
