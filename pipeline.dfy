/**
 * The sales-pipeline endpoint: quote statistics and the quotes grouped into
 * the four fixed stages; and the two endpoints listing the status and unit
 * choices.
 */
module Pipeline {
  import opened Wrappers
  import opened Text
  import opened Quotes

  /** The fields of a stored quote the pipeline reads. */
  datatype QuoteRow = QuoteRow(quoteNo: nat, status: string, totalAmount: real)

  datatype Stats = Stats(totalQuotes: nat, averageQuote: real, totalSum: real, totalMargin: real)

  datatype Stage = Stage(stage: string, title: string, count: nat, totalSum: real, quotes: seq<QuoteRow>)

  /** The stages, in the order the endpoint lists them. */
  const StageNames := ["Oppurtunity", "Scoping", "Proposal", "Confirmed"]

  /** The stage names are exactly the quote status values, in the same order. */
  lemma StageNamesAreStatuses()
    ensures StageNames == ChoiceValues(StatusChoices)
  {
    assert ChoiceValues(StatusChoices)[0] == "Oppurtunity";
  }

  /** `quotes.filter(status__iexact=name)` */
  function InStage(quotes: seq<QuoteRow>, name: string): (r: seq<QuoteRow>)
    ensures |r| <= |quotes|
    ensures forall q :: q in r <==> q in quotes && IEquals(q.status, name)
  {
    if quotes == [] then []
    else
      var last := quotes[|quotes| - 1];
      InStage(quotes[..|quotes| - 1], name) + (if IEquals(last.status, name) then [last] else [])
  }

  /** `Sum('total_amount')` with the empty sum read as 0 (`... or 0`). */
  function AmountSum(quotes: seq<QuoteRow>): real {
    if quotes == [] then 0.0 else AmountSum(quotes[..|quotes| - 1]) + quotes[|quotes| - 1].totalAmount
  }

  /** `Avg('total_amount') or 0` */
  function Average(quotes: seq<QuoteRow>): real {
    if quotes == [] then 0.0 else AmountSum(quotes) / |quotes| as real
  }

  /** `PipelineDataAPIView.get()` over the quote table `quotes`. */
  method PipelineData(quotes: seq<QuoteRow>) returns (stats: Stats, stages: seq<Stage>)
    ensures stats == Stats(|quotes|, Average(quotes), AmountSum(quotes), 0.0)
    ensures |stages| == |StageNames| == 4
    ensures forall i :: 0 <= i < |stages| ==>
              && stages[i].stage == Lower(StageNames[i]) && stages[i].title == Capitalize(StageNames[i])
              && stages[i].quotes == InStage(quotes, StageNames[i])
              && stages[i].count == |stages[i].quotes| && stages[i].totalSum == AmountSum(stages[i].quotes)
  {
    var totalSum := AmountSum(quotes);
    var averageQuote := if |quotes| == 0 then 0.0 else totalSum / |quotes| as real;
    stats := Stats(|quotes|, averageQuote, totalSum, 0.0);
    stages := [];
    for i := 0 to |StageNames|
      invariant |stages| == i
      invariant forall k :: 0 <= k < i ==>
                  && stages[k].stage == Lower(StageNames[k]) && stages[k].title == Capitalize(StageNames[k])
                  && stages[k].quotes == InStage(quotes, StageNames[k])
                  && stages[k].count == |stages[k].quotes| && stages[k].totalSum == AmountSum(stages[k].quotes)
    {
      var name := StageNames[i];
      var stageQuotes := InStage(quotes, name);
      stages := stages + [Stage(Lower(name), Capitalize(name), |stageQuotes|, AmountSum(stageQuotes), stageQuotes)];
    }
  }

  /** How many of the stages a status falls in. */
  function StagesOf(status: string): nat {
    (if IEquals(status, StageNames[0]) then 1 else 0) + (if IEquals(status, StageNames[1]) then 1 else 0)
    + (if IEquals(status, StageNames[2]) then 1 else 0) + (if IEquals(status, StageNames[3]) then 1 else 0)
  }

  /** The four stage names differ even ignoring case, so a status falls in at most one stage. */
  lemma AtMostOneStage(status: string)
    ensures StagesOf(status) <= 1
  {
    assert Lower(StageNames[0])[0] == 'o' && Lower(StageNames[1])[0] == 's';
    assert Lower(StageNames[2])[0] == 'p' && Lower(StageNames[3])[0] == 'c';
  }

  /** Adding a quote at the end adds it to the stage it matches, and to no other. */
  lemma StageStep(quotes: seq<QuoteRow>, n: string)
    requires quotes != []
    ensures var init, last := quotes[..|quotes| - 1], quotes[|quotes| - 1];
            && |InStage(quotes, n)| == |InStage(init, n)| + (if IEquals(last.status, n) then 1 else 0)
            && AmountSum(InStage(quotes, n)) == AmountSum(InStage(init, n)) + (if IEquals(last.status, n) then last.totalAmount else 0.0)
  {
    var init, last := quotes[..|quotes| - 1], quotes[|quotes| - 1];
    var before := InStage(init, n);
    if IEquals(last.status, n) {
      assert InStage(quotes, n) == before + [last];
      assert (before + [last])[..|before|] == before;
    } else {
      assert InStage(quotes, n) == before + [];
      assert before + [] == before;
    }
  }

  /**
   * When every quote has one of the four statuses (in any case), the stages
   * split the quotes: their counts add up to `total_quotes` and their sums to
   * the overall `total_sum`.
   */
  lemma {:induction false} StagesPartitionQuotes(quotes: seq<QuoteRow>)
    requires forall q :: q in quotes ==> StagesOf(q.status) == 1
    ensures |InStage(quotes, StageNames[0])| + |InStage(quotes, StageNames[1])|
            + |InStage(quotes, StageNames[2])| + |InStage(quotes, StageNames[3])| == |quotes|
    ensures AmountSum(InStage(quotes, StageNames[0])) + AmountSum(InStage(quotes, StageNames[1]))
            + AmountSum(InStage(quotes, StageNames[2])) + AmountSum(InStage(quotes, StageNames[3])) == AmountSum(quotes)
  {
    if quotes != [] {
      var init, last := quotes[..|quotes| - 1], quotes[|quotes| - 1];
      assert forall q :: q in init ==> q in quotes;
      StagesPartitionQuotes(init);
      StageStep(quotes, StageNames[0]);
      StageStep(quotes, StageNames[1]);
      StageStep(quotes, StageNames[2]);
      StageStep(quotes, StageNames[3]);
      assert last in quotes;
    }
  }

  /** A quote whose status is none of the four appears in no stage. */
  lemma UnknownStatusInNoStage(quotes: seq<QuoteRow>, q: QuoteRow)
    requires q in quotes && StagesOf(q.status) == 0
    ensures forall n :: n in StageNames ==> q !in InStage(quotes, n)
  {
  }

  // ---------------------------------------------------------------------------
  // The choice endpoints
  // ---------------------------------------------------------------------------

  /** One `{"value": ..., "label": ...}` object; `display` holds the label. */
  datatype ChoiceEntry = ChoiceEntry(value: string, display: string)

  /** `[{"value": c[0], "label": c[1]} for c in choices]` */
  function ChoiceEntries(choices: Choices): (r: seq<ChoiceEntry>)
    ensures |r| == |choices|
  {
    seq(|choices|, i requires 0 <= i < |choices| => ChoiceEntry(choices[i].0, choices[i].1))
  }

  /** Every pair is listed, in order, and nothing is lost: the pairs can be read back from the entries. */
  lemma ChoiceEntriesRoundTrip(choices: Choices)
    ensures var r := ChoiceEntries(choices);
            && seq(|r|, i requires 0 <= i < |r| => (r[i].value, r[i].display)) == choices
            && seq(|r|, i requires 0 <= i < |r| => r[i].value) == ChoiceValues(choices)
  {
  }
}
