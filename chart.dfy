/** The data the risk breakdown radar chart is drawn from
    (src/components/RiskBreakdownChart.tsx): one entry per category. */
module RiskBreakdownChart {
  import opened Types

  /** One radar spoke: `{ subject, A, fullMark }`. */
  datatype ChartEntry = ChartEntry(subject: string, a: real, fullMark: real)

  /** The categories in the order the chart lists them. */
  const ChartOrder: seq<Category> := [Legal, Financial, Structural, Ownership]

  /** The chart's `data` array: four entries, in chart order, each carrying
      its category's score unmodified and a full mark of 100. */
  function ChartData(scores: CategoryScores): (data: seq<ChartEntry>)
    ensures |data| == |ChartOrder| == 4
    ensures forall i :: 0 <= i < |data| ==>
              && data[i].subject == CategoryName(ChartOrder[i])
              && data[i].a == ScoreOf(scores, ChartOrder[i])
              && data[i].fullMark == 100.0
  {
    [ ChartEntry("Legal", scores.legal, 100.0),
      ChartEntry("Financial", scores.financial, 100.0),
      ChartEntry("Structural", scores.structural, 100.0),
      ChartEntry("Ownership", scores.ownership, 100.0) ]
  }

  /** Reads the scores back off chart data laid out in chart order. */
  function ScoresOfChart(data: seq<ChartEntry>): Option<CategoryScores>
  {
    if |data| == 4
       && data[0].subject == "Legal" && data[1].subject == "Financial"
       && data[2].subject == "Structural" && data[3].subject == "Ownership"
    then Some(CategoryScores(data[0].a, data[1].a, data[2].a, data[3].a))
    else None
  }

  /** The chart loses nothing: the scores can be read back from it, so
      different scores always draw different charts. */
  lemma ChartRoundTrip(scores: CategoryScores)
    ensures ScoresOfChart(ChartData(scores)) == Some(scores)
  {
  }

  /** Every category appears on exactly one spoke, with its own score. */
  lemma EveryCategoryOnce(scores: CategoryScores, c: Category)
    ensures exists i :: 0 <= i < 4 && ChartData(scores)[i].subject == CategoryName(c)
    ensures forall i, j ::
              (0 <= i < 4 && 0 <= j < 4
               && ChartData(scores)[i].subject == CategoryName(c)
               && ChartData(scores)[j].subject == CategoryName(c)) ==> i == j
    ensures forall i :: 0 <= i < 4 && ChartData(scores)[i].subject == CategoryName(c) ==>
              ChartData(scores)[i].a == ScoreOf(scores, c)
  {
    var data := ChartData(scores);
    var i := match c case Legal => 0 case Financial => 1 case Structural => 2 case Ownership => 3;
    assert data[i].subject == CategoryName(c);
  }
}
