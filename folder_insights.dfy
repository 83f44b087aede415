/** The per-folder cards of the statistics page
    (frontend/src/components/FolderInsights.js): the clamped progress bar,
    the threshold colours and the summary line, over the figures the
    folder-insights endpoint returns. */
module FolderInsightsView {
  import opened Common
  import opened Decimal
  import opened StatsController
  import Store

  /** The three colours of the bar and of the overdue text. */
  datatype Colour = Green | Orange | Red
  {
    function Hex(): string
    {
      match this
      case Green => "#27ae60"
      case Orange => "#f39c12"
      case Red => "#e74c3c"
    }
  }

  /** ProgressBar's width: `percent` defaults to 0 and is clamped into
      0..100. */
  function Clamp(percent: Option<int>): (p: int)
    ensures 0 <= p <= 100
    ensures percent.None? ==> p == 0
    ensures percent.Some? && 0 <= percent.value <= 100 ==> p == percent.value
    ensures percent.Some? && percent.value > 100 ==> p == 100
    ensures percent.Some? && percent.value < 0 ==> p == 0
  {
    var v := percent.GetOrDefault(0);
    if v > 100 then 100 else if v < 0 then 0 else v
  }

  /** Green from 80, orange from 50, red below. */
  function ThresholdColour(p: int): (c: Colour)
    ensures c == Green <==> p >= 80
    ensures c == Orange <==> 50 <= p < 80
    ensures c == Red <==> p < 50
  {
    if p >= 80 then Green else if p >= 50 then Orange else Red
  }

  /** The bar, coloured after clamping, and the overdue text, coloured on
      the raw percentage, always agree. */
  lemma BarMatchesText(percent: int)
    ensures ThresholdColour(Clamp(Some(percent))) == ThresholdColour(percent)
  {
  }

  /** The summary line as written: 'All tasks complete' whenever the
      rounded percentage reaches 100. */
  function SummaryByPercent(name: string, percentComplete: int): string
  {
    if percentComplete >= 100 then "All tasks complete"
    else name + " folder: " + IntToDecimal(percentComplete) + "% completed"
  }

  /** The non-summary line never reads 'All tasks complete': it ends in
      'd'. */
  lemma ProgressLineDiffers(name: string, percent: int)
    ensures name + " folder: " + IntToDecimal(percent) + "% completed" != "All tasks complete"
  {
    var s := name + " folder: " + IntToDecimal(percent) + "% completed";
    assert s[|s| - 1] == 'd';
  }

  /** The percentage rounds to 100 as soon as 99.5% of the tasks are done. */
  lemma PercentReaches100(completed: nat, total: nat)
    requires total > 0 && completed <= total
    ensures PercentComplete(completed, total) == 100 <==> 200 * completed >= 199 * total
  {
    var p := PercentComplete(completed, total);
    if 200 * completed >= 199 * total {
      if p < 100 {
        MulMonotone(p, 99, total);
      }
    }
  }

  /** What the summary as written says about a folder: complete exactly
      when at least 99.5% of its tasks are done. */
  lemma SummaryByPercentMeaning(name: string, completed: nat, total: nat)
    requires completed <= total
    ensures SummaryByPercent(name, PercentComplete(completed, total)) == "All tasks complete"
            <==> total > 0 && 200 * completed >= 199 * total
  {
    if total > 0 {
      PercentReaches100(completed, total);
    }
    ProgressLineDiffers(name, PercentComplete(completed, total));
  }

  /** A folder with 399 of 400 tasks done is summarised as 'All tasks
      complete'. */
  lemma PendingFolderShownComplete()
    ensures var ins := Insight(400, 399, 0, PercentComplete(399, 400));
            && ins.completed < ins.total
            && SummaryByPercent("Work", ins.percentComplete) == "All tasks complete"
            && FolderCard("Work", ins).summary == "All tasks complete"
  {
    PercentReaches100(399, 400);
  }

  /** The summary line decided on the counts the endpoint also returns. */
  function Summary(name: string, ins: Insight): string
  {
    if ins.total > 0 && ins.completed == ins.total then "All tasks complete"
    else name + " folder: " + IntToDecimal(ins.percentComplete) + "% completed"
  }

  /** The summary reads 'All tasks complete' exactly when the folder has
      tasks and all of them are done; where the percentage and the counts
      agree it is the line as written. */
  lemma SummaryExact(name: string, ins: Insight)
    requires ins.completed <= ins.total && ins.percentComplete == PercentComplete(ins.completed, ins.total)
    ensures Summary(name, ins) == "All tasks complete" <==> ins.total > 0 && ins.completed == ins.total
    ensures ins.percentComplete < 100 || ins.completed == ins.total ==>
              Summary(name, ins) == SummaryByPercent(name, ins.percentComplete)
  {
    ProgressLineDiffers(name, ins.percentComplete);
  }

  /** One folder card. */
  datatype Card = Card(
    name: string,
    barWidth: int,
    barColour: Colour,
    percentText: string,
    overdueText: string,
    overdueColour: Colour,
    summary: string)

  /** The card as rendered, with the summary line as written. */
  function FolderCard(name: string, ins: Insight): (c: Card)
    ensures 0 <= c.barWidth <= 100
    ensures c.barColour == c.overdueColour
    ensures c.summary == "All tasks complete" <==> ins.percentComplete >= 100
  {
    BarMatchesText(ins.percentComplete);
    ProgressLineDiffers(name, ins.percentComplete);
    Card(name, Clamp(Some(ins.percentComplete)), ThresholdColour(Clamp(Some(ins.percentComplete))),
         IntToDecimal(ins.percentComplete) + "%", NatToDecimal(ins.overdue) + " overdue",
         ThresholdColour(ins.percentComplete), SummaryByPercent(name, ins.percentComplete))
  }

  /** The card with the corrected summary line; everything else as rendered. */
  function CorrectedCard(name: string, ins: Insight): (c: Card)
    ensures c.(summary := FolderCard(name, ins).summary) == FolderCard(name, ins)
  {
    FolderCard(name, ins).(summary := Summary(name, ins))
  }

  /** On the endpoint's figures the corrected card claims completion exactly
      for a folder that has tasks and all of them done. */
  lemma CorrectedCardOfInsight(name: string, tasks: map<TaskId, Store.Task>, fid: FolderId, now: int)
    ensures var ins := FolderInsight(tasks, fid, now);
            CorrectedCard(name, ins).summary == "All tasks complete" <==> ins.total > 0 && ins.completed == ins.total
  {
    SummaryExact(name, FolderInsight(tasks, fid, now));
  }

  /** A card built from the endpoint's figures for a folder: a full bar
      and green exactly when all its tasks are done, an empty red bar for
      a folder without tasks. */
  lemma CardOfInsight(name: string, tasks: map<TaskId, Store.Task>, fid: FolderId, now: int)
    ensures var ins := FolderInsight(tasks, fid, now);
            var c := FolderCard(name, ins);
            && c.barWidth == ins.percentComplete
            && (ins.total > 0 && ins.completed == ins.total ==> c.barWidth == 100 && c.barColour == Green && c.summary == "All tasks complete")
            && (ins.total == 0 ==> c.barWidth == 0 && c.barColour == Red && c.summary != "All tasks complete")
  {
    var ins := FolderInsight(tasks, fid, now);
    ProgressLineDiffers(name, ins.percentComplete);
  }
}
