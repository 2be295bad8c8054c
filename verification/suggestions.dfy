/** The rule-based advisory engine: three fixed-threshold rules, each
    reading only the first daily reading of its own parameter, applied in
    the fixed order precipitation, UV index, wind speed. */
module Suggestions {
  import opened Wrappers
  import opened Weather

  /** One advisory. Each carries the reading that decided it; the
      Portuguese message text around that value is not modelled. */
  datatype Advisory =
    | LowPrecipitation(mm: real)          // suggests starting irrigation
    | SufficientPrecipitation(mm: real)   // irrigation not necessary
    | HighUV(index: real)                 // protect the plants
    | SafeUV(index: real)                 // no action needed
    | StrongWind(speed: real)             // spraying not recommended
    | SuitableForSpraying(speed: real)
  {
    /** The rule that produced this advisory. */
    function Rule(): Rule {
      match this
      case LowPrecipitation(_) | SufficientPrecipitation(_) => PrecipitationRule
      case HighUV(_) | SafeUV(_) => UVRule
      case StrongWind(_) | SuitableForSpraying(_) => WindRule
    }

    /** The reading interpolated into the advisory. */
    function Value(): real {
      match this
      case LowPrecipitation(v) => v
      case SufficientPrecipitation(v) => v
      case HighUV(v) => v
      case SafeUV(v) => v
      case StrongWind(v) => v
      case SuitableForSpraying(v) => v
    }

    /** The warning variant of its rule: start irrigating, protect the
        plants, do not spray. */
    predicate IsWarning() {
      LowPrecipitation? || HighUV? || StrongWind?
    }
  }

  datatype Rule = PrecipitationRule | UVRule | WindRule {
    /** The payload parameter the rule reads. */
    function Code(): string {
      match this
      case PrecipitationRule => Precipitation
      case UVRule => UVIndex
      case WindRule => WindSpeed
    }

    /** Position of the rule in the evaluation order. */
    function Rank(): nat {
      match this
      case PrecipitationRule => 0
      case UVRule => 1
      case WindRule => 2
    }

    /** When the rule warns, stated as a threshold on the deciding reading:
        precipitation below 5, UV index 8 or more, wind speed above 5. */
    predicate Warns(v: real) {
      match this
      case PrecipitationRule => v < 5.0
      case UVRule => v >= 8.0
      case WindRule => v > 5.0
    }
  }

  /** The advisories appear in strictly increasing rule order, so each rule
      contributes at most once. */
  predicate InRuleOrder(r: seq<Advisory>) {
    forall i, j :: 0 <= i < j < |r| ==> r[i].Rule().Rank() < r[j].Rule().Rank()
  }

  /** Number of rules whose parameter has at least one reading. */
  function ApplicableRules(p: Payload): nat {
    (if HasReadings(p, Precipitation) then 1 else 0)
    + (if HasReadings(p, UVIndex) then 1 else 0)
    + (if HasReadings(p, WindSpeed) then 1 else 0)
  }

  /** What an advisory promises about the payload: its rule's parameter has
      readings, it carries the first of them, and it is the warning variant
      exactly when that reading crosses the rule's threshold. */
  ghost predicate Justified(p: Payload, a: Advisory) {
    && (exists j :: HasEntry(p, a.Rule().Code(), j) && |p[j].readings| > 0
                    && p[j].readings[0] == a.Value())
    && (a.IsWarning() <==> a.Rule().Warns(a.Value()))
  }

  /** Every advisory of `r` was produced by `rule`. */
  predicate AllOf(r: seq<Advisory>, rule: Rule) {
    forall k :: 0 <= k < |r| ==> r[k].Rule() == rule
  }

  /** Some advisory of `r` was produced by `rule`. */
  predicate Mentions(r: seq<Advisory>, rule: Rule) {
    exists k :: 0 <= k < |r| && r[k].Rule() == rule
  }

  ghost predicate AllJustified(p: Payload, r: seq<Advisory>) {
    forall k :: 0 <= k < |r| ==> Justified(p, r[k])
  }

  /** The advisories a single rule contributes: none when its parameter
      has no reading, otherwise exactly one, justified by the payload. */
  ghost predicate RuleContribution(p: Payload, rule: Rule, r: seq<Advisory>) {
    && |r| == (if HasReadings(p, rule.Code()) then 1 else 0)
    && AllOf(r, rule)
    && AllJustified(p, r)
  }

  function PrecipitationAdvice(p: Payload): (r: seq<Advisory>)
    ensures RuleContribution(p, PrecipitationRule, r)
  {
    match FirstReading(p, Precipitation)
    case None => []
    case Some(v) => [if v < 5.0 then LowPrecipitation(v) else SufficientPrecipitation(v)]
  }

  function UVAdvice(p: Payload): (r: seq<Advisory>)
    ensures RuleContribution(p, UVRule, r)
  {
    match FirstReading(p, UVIndex)
    case None => []
    case Some(v) => [if v >= 8.0 then HighUV(v) else SafeUV(v)]
  }

  function WindAdvice(p: Payload): (r: seq<Advisory>)
    ensures RuleContribution(p, WindRule, r)
  {
    match FirstReading(p, WindSpeed)
    case None => []
    case Some(v) => [if v > 5.0 then StrongWind(v) else SuitableForSpraying(v)]
  }

  /** Concatenating at most one advisory per rule, in rule order, yields a
      list in rule order that mentions a rule exactly when that rule
      contributed, and keeps every advisory's justification. */
  lemma ConcatenatedContributions(p: Payload, a: seq<Advisory>, b: seq<Advisory>, c: seq<Advisory>)
    requires |a| <= 1 && |b| <= 1 && |c| <= 1
    requires AllOf(a, PrecipitationRule) && AllOf(b, UVRule) && AllOf(c, WindRule)
    requires AllJustified(p, a) && AllJustified(p, b) && AllJustified(p, c)
    ensures InRuleOrder(a + b + c)
    ensures Mentions(a + b + c, PrecipitationRule) <==> |a| > 0
    ensures Mentions(a + b + c, UVRule) <==> |b| > 0
    ensures Mentions(a + b + c, WindRule) <==> |c| > 0
    ensures AllJustified(p, a + b + c)
  {
    var r := a + b + c;
    assert forall k :: 0 <= k < |a| ==> r[k] == a[k];
    assert forall k :: |a| <= k < |a| + |b| ==> r[k] == b[k - |a|];
    assert forall k :: |a| + |b| <= k < |r| ==> r[k] == c[k - |a| - |b|];
    if |a| > 0 { assert r[0].Rule() == PrecipitationRule; }
    if |b| > 0 { assert r[|a|].Rule() == UVRule; }
    if |c| > 0 { assert r[|a| + |b|].Rule() == WindRule; }
  }

  /** `generate_suggestions`: the precipitation, UV and wind rules, each
      contributing its advisory in that order. What it promises: one
      advisory per rule whose parameter is present with a non-empty series
      and none for the others, in rule order, each carrying its parameter's
      first reading and warning exactly when that reading crosses the rule's
      threshold. */
  function GenerateSuggestions(p: Payload): (r: seq<Advisory>)
    ensures InRuleOrder(r)
    ensures |r| == ApplicableRules(p) <= 3
    ensures Mentions(r, PrecipitationRule) <==> HasReadings(p, Precipitation)
    ensures Mentions(r, UVRule) <==> HasReadings(p, UVIndex)
    ensures Mentions(r, WindRule) <==> HasReadings(p, WindSpeed)
    ensures AllJustified(p, r)
  {
    var precipitation, uv, wind := PrecipitationAdvice(p), UVAdvice(p), WindAdvice(p);
    ConcatenatedContributions(p, precipitation, uv, wind);
    precipitation + uv + wind
  }

  /** The advisory for a rule is the one its first reading selects: for
      every entry of the rule's parameter with readings, the list holds the
      advisory of that rule carrying the entry's first reading, warning
      exactly when the threshold is crossed. */
  lemma AdvisoryOfRule(p: Payload, rule: Rule, j: nat)
    requires HasEntry(p, rule.Code(), j) && |p[j].readings| > 0
    ensures exists k :: 0 <= k < |GenerateSuggestions(p)|
                        && GenerateSuggestions(p)[k].Rule() == rule
                        && GenerateSuggestions(p)[k].Value() == p[j].readings[0]
                        && (GenerateSuggestions(p)[k].IsWarning() <==> rule.Warns(p[j].readings[0]))
  {
    var r := GenerateSuggestions(p);
    assert HasReadings(p, rule.Code());
    var k :| 0 <= k < |r| && r[k].Rule() == rule;
    assert Justified(p, r[k]);
    var i :| HasEntry(p, rule.Code(), i) && |p[i].readings| > 0 && p[i].readings[0] == r[k].Value();
    assert i == j;
  }

  lemma PrecipitationAdviceDecidedByFirstReading(p: Payload, q: Payload)
    requires FirstReading(q, Precipitation) == FirstReading(p, Precipitation)
    ensures PrecipitationAdvice(q) == PrecipitationAdvice(p)
  {
  }

  lemma UVAdviceDecidedByFirstReading(p: Payload, q: Payload)
    requires FirstReading(q, UVIndex) == FirstReading(p, UVIndex)
    ensures UVAdvice(q) == UVAdvice(p)
  {
  }

  lemma WindAdviceDecidedByFirstReading(p: Payload, q: Payload)
    requires FirstReading(q, WindSpeed) == FirstReading(p, WindSpeed)
    ensures WindAdvice(q) == WindAdvice(p)
  {
  }

  /** Two payloads whose rule parameters start with the same readings (or
      are equally absent or empty) get the same advisories. */
  lemma FirstReadingsDecide(p: Payload, q: Payload)
    requires FirstReading(q, Precipitation) == FirstReading(p, Precipitation)
    requires FirstReading(q, UVIndex) == FirstReading(p, UVIndex)
    requires FirstReading(q, WindSpeed) == FirstReading(p, WindSpeed)
    ensures GenerateSuggestions(q) == GenerateSuggestions(p)
  {
    PrecipitationAdviceDecidedByFirstReading(p, q);
    UVAdviceDecidedByFirstReading(p, q);
    WindAdviceDecidedByFirstReading(p, q);
  }

  /** Only the first reading of each parameter matters: payloads that
      differ only after the first reading of each series get the same
      advisories. */
  lemma LaterReadingsIrrelevant(p: Payload, q: Payload)
    requires SameFirstReadings(p, q)
    ensures GenerateSuggestions(q) == GenerateSuggestions(p)
  {
    FirstReadingOnlySeesFirst(p, q, Precipitation);
    FirstReadingOnlySeesFirst(p, q, UVIndex);
    FirstReadingOnlySeesFirst(p, q, WindSpeed);
    FirstReadingsDecide(p, q);
  }

  /** Parameters other than the three rule parameters never affect the
      advisories, and neither does the order of the payload: payloads with
      the same entries for the rule parameters get the same advisories. */
  lemma OtherParametersIrrelevant(p: Payload, q: Payload)
    requires SameEntriesFor(p, q, Precipitation)
    requires SameEntriesFor(p, q, UVIndex)
    requires SameEntriesFor(p, q, WindSpeed)
    ensures GenerateSuggestions(q) == GenerateSuggestions(p)
  {
    FirstReadingOnlySeesItsEntry(p, q, Precipitation);
    FirstReadingOnlySeesItsEntry(p, q, UVIndex);
    FirstReadingOnlySeesItsEntry(p, q, WindSpeed);
    FirstReadingsDecide(p, q);
  }

  /** The missing-value marker is compared like any other number: a first
      precipitation reading of -999.0 asks for irrigation, a first UV or wind
      reading of -999.0 reports a safe value. */
  lemma SentinelIsAnOrdinaryReading(p: Payload, rule: Rule, j: nat)
    requires HasEntry(p, rule.Code(), j) && |p[j].readings| > 0 && p[j].readings[0] == Sentinel
    ensures rule == PrecipitationRule ==> LowPrecipitation(Sentinel) in GenerateSuggestions(p)
    ensures rule == UVRule ==> SafeUV(Sentinel) in GenerateSuggestions(p)
    ensures rule == WindRule ==> SuitableForSpraying(Sentinel) in GenerateSuggestions(p)
  {
    AdvisoryOfRule(p, rule, j);
  }

  /** Boundaries: a first precipitation reading of exactly 5 is
      sufficient, a UV index of exactly 8 is high, and a wind speed of
      exactly 5 still allows spraying. */
  lemma ThresholdBoundaries(p: Payload, rule: Rule, j: nat)
    requires HasEntry(p, rule.Code(), j) && |p[j].readings| > 0
    ensures rule == PrecipitationRule && p[j].readings[0] == 5.0 ==>
              SufficientPrecipitation(5.0) in GenerateSuggestions(p)
    ensures rule == UVRule && p[j].readings[0] == 8.0 ==> HighUV(8.0) in GenerateSuggestions(p)
    ensures rule == WindRule && p[j].readings[0] == 5.0 ==>
              SuitableForSpraying(5.0) in GenerateSuggestions(p)
  {
    AdvisoryOfRule(p, rule, j);
  }

  /** Two days of readings starting at 3 mm give a single low-precipitation
      advisory carrying 3. */
  lemma LowPrecipitationExample()
    ensures GenerateSuggestions([Entry(Precipitation, [3.0, 4.0])]) == [LowPrecipitation(3.0)]
  {
    var p: Payload := [Entry(Precipitation, [3.0, 4.0])];
    assert HasEntry(p, Precipitation, 0);
    assert FirstReading(p, Precipitation) == Some(3.0);
    assert FirstReading(p, UVIndex) == None;
    assert FirstReading(p, WindSpeed) == None;
  }

  /** A wind speed of exactly 5 m/s is suitable for spraying. */
  lemma CalmWindExample()
    ensures GenerateSuggestions([Entry(WindSpeed, [5.0])]) == [SuitableForSpraying(5.0)]
  {
    var p: Payload := [Entry(WindSpeed, [5.0])];
    assert HasEntry(p, WindSpeed, 0);
    assert FirstReading(p, Precipitation) == None;
    assert FirstReading(p, UVIndex) == None;
    assert FirstReading(p, WindSpeed) == Some(5.0);
  }
}
