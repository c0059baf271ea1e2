/** The insights modal (`InsightsModal`): one card per status entry with
    its share of all jobs, and a note when there are no jobs. */
module Insights {
  import opened Text
  import Formatters

  /** One entry of `jobStatusData`. */
  datatype StatusCount = StatusCount(status: string, count: int)

  /** `Math.round(count / total * 100)` for a positive total, else 0, in
      exact arithmetic: the integer nearest to 100 * count / total, halves
      rounded up. */
  function Percentage(count: int, total: int): (p: int)
    ensures total > 0 ==> 2 * total * p <= 200 * count + total < 2 * total * p + 2 * total
    ensures total <= 0 ==> p == 0
  {
    if total > 0 then (200 * count + total) / (2 * total) else 0
  }

  /** Multiplying by a positive factor keeps strict order, both ways. */
  lemma ScaleLess(k: int, a: int, b: int)
    requires k > 0
    ensures k * a < k * b <==> a < b
  {
    if a < b {
      assert k * b - k * a == k * (b - a);
    } else {
      assert k * a - k * b == k * (a - b);
    }
  }

  /** A count between 0 and the total gives a percentage between 0 and 100. */
  lemma PercentageBounds(count: int, total: int)
    requires 0 <= count <= total
    ensures 0 <= Percentage(count, total) <= 100
  {
    if total > 0 {
      var p := Percentage(count, total);
      var k := 2 * total;
      assert k * p <= 200 * count + total < k * 101;
      ScaleLess(k, p, 101);
      assert k * (-1) < k * p;
      ScaleLess(k, -1, p);
    }
  }

  /** The whole is 100%. */
  lemma PercentageOfTotal(total: int)
    requires total > 0
    ensures Percentage(total, total) == 100
  {
    var p := Percentage(total, total);
    var k := 2 * total;
    assert k * p <= 201 * total < k * 101;
    ScaleLess(k, p, 101);
    assert k * (p + 1) == k * p + k;
    assert k * 99 < k * (p + 1);
    ScaleLess(k, 99, p + 1);
  }

  /** More jobs never show a smaller share. */
  lemma PercentageMonotonic(c1: int, c2: int, total: int)
    requires c1 <= c2
    ensures Percentage(c1, total) <= Percentage(c2, total)
  {
    if total > 0 {
      var p1 := Percentage(c1, total);
      var p2 := Percentage(c2, total);
      var k := 2 * total;
      assert k * (p2 + 1) == k * p2 + k;
      assert k * p1 < k * (p2 + 1);
      ScaleLess(k, p1, p2 + 1);
    }
  }

  /** Rounding: one third is 33%, two thirds 67%, an eighth (12.5) 13%,
      and halves of even totals are exact. */
  lemma PercentageExamples()
    ensures Percentage(1, 3) == 33 && Percentage(2, 3) == 67 && Percentage(1, 8) == 13
    ensures Percentage(10, 20) == 50 && Percentage(5, 20) == 25 && Percentage(0, 20) == 0
    ensures Percentage(3, 20) == 15 && Percentage(2, 20) == 10
    ensures Percentage(7, 0) == 0
  {
  }

  /** "job" for a count of exactly 1, "jobs" otherwise (0 included). */
  function JobsWord(count: int): (w: string)
    ensures count == 1 <==> w == "job"
    ensures count != 1 <==> w == "jobs"
  {
    "job" + (if count != 1 then "s" else "")
  }

  /** The text beside a card's label: `<count> job(s) (<percentage>%)`. */
  function CountText(count: int, total: int): (t: string)
    ensures StartsWith(t, IntToString(count) + " " + JobsWord(count) + " (")
    ensures count == 1 ==> t == "1 job (" + IntToString(Percentage(1, total)) + "%)"
    ensures count != 1 ==> t == IntToString(count) + " jobs (" + IntToString(Percentage(count, total)) + "%)"
  {
    var pct := IntToString(Percentage(count, total));
    var head := IntToString(count) + " " + JobsWord(count) + " (";
    var t := head + pct + "%)";
    assert t[..|head|] == head;
    if count == 1 then
      OneNumeral();
      assert head == "1 job (";
      t
    else
      assert head == IntToString(count) + " jobs (";
      t
  }

  lemma OneNumeral()
    ensures IntToString(1) == "1"
  {
    assert NatToString(1) == "1";
  }

  lemma SmallNumerals()
    ensures IntToString(0) == "0" && IntToString(1) == "1"
    ensures IntToString(10) == "10" && IntToString(50) == "50" && IntToString(100) == "100"
  {
    assert NatToString(10) == "10" by {
      assert NatToString(1) == "1" && NatToString(0) == "0";
    }
    assert NatToString(50) == "50" by {
      assert NatToString(5) == "5" && NatToString(0) == "0";
    }
  }

  lemma CountTextExamples()
    ensures CountText(10, 20) == "10 jobs (50%)"
    ensures CountText(1, 1) == "1 job (100%)"
    ensures CountText(0, 0) == "0 jobs (0%)"
  {
    SmallNumerals();
    PercentageOfTotal(1);
    assert Percentage(10, 20) == 50;
  }

  lemma SplitNumerals()
    ensures IntToString(2) == "2" && IntToString(3) == "3" && IntToString(5) == "5"
    ensures IntToString(15) == "15" && IntToString(25) == "25"
  {
    assert NatToString(15) == "15" by {
      assert NatToString(1) == "1" && NatToString(5) == "5";
    }
    assert NatToString(25) == "25" by {
      assert NatToString(2) == "2" && NatToString(5) == "5";
    }
  }

  /** The text for a count other than one, from its numerals. */
  lemma CountTextOfMany(count: int, total: int, pct: int, countText: string, pctText: string)
    requires count != 1 && Percentage(count, total) == pct
    requires IntToString(count) == countText && IntToString(pct) == pctText
    ensures CountText(count, total) == countText + " jobs (" + pctText + "%)"
  {
  }

  /** The counts of a twenty-job split into 10, 5, 3 and 2 (the 10 is
      in `CountTextExamples`). */
  lemma CountTextSplitExamples()
    ensures CountText(5, 20) == "5 jobs (25%)"
    ensures CountText(3, 20) == "3 jobs (15%)"
    ensures CountText(2, 20) == "2 jobs (10%)"
  {
    FiveOfTwenty();
    ThreeOfTwenty();
    TwoOfTwenty();
  }

  /** One example per lemma keeps each proof small. */
  lemma FiveOfTwenty()
    ensures CountText(5, 20) == "5 jobs (25%)"
  {
    assert Percentage(5, 20) == 25;
    SplitNumerals();
    CountTextOfMany(5, 20, 25, "5", "25");
  }

  lemma ThreeOfTwenty()
    ensures CountText(3, 20) == "3 jobs (15%)"
  {
    assert Percentage(3, 20) == 15;
    SplitNumerals();
    CountTextOfMany(3, 20, 15, "3", "15");
  }

  lemma TwoOfTwenty()
    ensures CountText(2, 20) == "2 jobs (10%)"
  {
    assert Percentage(2, 20) == 10;
    SplitNumerals();
    SmallNumerals();
    CountTextOfMany(2, 20, 10, "2", "10");
  }

  /** One card: the key, the upper-cased caption, the count text, the bar's
      length and the bar's colour. */
  datatype Card = Card(key: string, caption: string, text: string, percent: int, color: string)

  function CardOf(item: StatusCount, total: int): (c: Card)
    ensures c.key == item.status && c.caption == Upper(item.status)
    ensures c.percent == Percentage(item.count, total)
    ensures c.color == Formatters.StatusColor(item.status) && c.color in Formatters.Colors
    ensures c.text == CountText(item.count, total)
  {
    Card(item.status, Upper(item.status), CountText(item.count, total),
         Percentage(item.count, total), Formatters.StatusColor(item.status))
  }

  /** The cards, one per entry and in entry order. */
  function Cards(items: seq<StatusCount>, total: int): (cards: seq<Card>)
    ensures |cards| == |items|
    ensures forall i :: 0 <= i < |items| ==> cards[i] == CardOf(items[i], total)
  {
    seq(|items|, i requires 0 <= i < |items| => CardOf(items[i], total))
  }

  /** When the counts are a split of the total into non-negative parts,
      every bar lies between 0 and 100. */
  lemma CardsWithinRange(items: seq<StatusCount>, total: int)
    requires forall i :: 0 <= i < |items| ==> 0 <= items[i].count <= total
    ensures forall c :: c in Cards(items, total) ==> 0 <= c.percent <= 100
  {
    var cards := Cards(items, total);
    forall c | c in cards
      ensures 0 <= c.percent <= 100
    {
      var i :| 0 <= i < |cards| && cards[i] == c;
      PercentageBounds(items[i].count, total);
    }
  }

  /** The "No job data" note shows exactly for a total of 0; the cards
      are still drawn, all at 0%. */
  function NoDataNote(total: int): (shown: bool)
    ensures shown <==> total == 0
  {
    total == 0
  }

  lemma NoDataCards(items: seq<StatusCount>)
    ensures NoDataNote(0)
    ensures forall c :: c in Cards(items, 0) ==> c.percent == 0
  {
  }
}
