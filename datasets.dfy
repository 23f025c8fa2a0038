/** The three dataset names a user may choose, and the three lookup tables
    that the pipeline, the trainer and the projector each keep for them. */
module Datasets {

  /** Pipeline choice to pandas resampling rule: calendar day, week ending on
      Sunday, month start. */
  const FreqMap: map<string, string> := map["daily" := "1D", "weekly" := "1W", "monthly" := "MS"]

  /** Trainer and projector choice to the name of the processed file they
      read. */
  const FileMap: map<string, string> :=
    map["daily" := "bitcoin_daily.csv", "weekly" := "bitcoin_weekly.csv", "monthly" := "bitcoin_monthly.csv"]

  /** Projector choice to the pandas date offset it advances by; monthly
      advances to the next month END, while the pipeline labels months by
      their START. */
  const OffsetMap: map<string, string> := map["daily" := "1D", "weekly" := "1W", "monthly" := "1M"]

  predicate IsChoice(s: string)
  {
    s == "daily" || s == "weekly" || s == "monthly"
  }

  /** The name of the processed file the pipeline writes for a choice. */
  function OutputName(choice: string): string
  {
    "bitcoin_" + choice + ".csv"
  }

  /** All three tables accept exactly the three choices, and the file name
      the trainer and the projector look up for a choice is the file name
      the pipeline writes for it. */
  lemma ChoicesAgree(s: string)
    ensures s in FreqMap <==> IsChoice(s)
    ensures s in FileMap <==> IsChoice(s)
    ensures s in OffsetMap <==> IsChoice(s)
    ensures s in FileMap ==> FileMap[s] == OutputName(s)
  {
    assert OutputName("daily") == "bitcoin_daily.csv";
    assert OutputName("weekly") == "bitcoin_weekly.csv";
    assert OutputName("monthly") == "bitcoin_monthly.csv";
  }

  /** The projector's monthly offset is not the pipeline's monthly rule. */
  lemma MonthlyRulesDiffer()
    ensures FreqMap["monthly"] != OffsetMap["monthly"]
    ensures forall s :: s in FreqMap && s != "monthly" ==> FreqMap[s] == OffsetMap[s]
  {
  }
}
