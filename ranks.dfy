/** The rank-delta calculator (`rank_change`, main.py:102-110) and what the
    session remembers of each user's rank (main.py:113-114, 139, 170). */
module Ranks {
  import opened Wrappers
  import opened Text

  /** A value of the session's `prev_ranks` map: the ranking of the last
      profile fetched, Python `None` when that profile had no ranking, or
      "N/A" when the fetch failed. */
  datatype StoredRank = RankValue(n: int) | NoRanking | NotAvailable

  /** The classification of a rank change. `Unknown` is shown as "". */
  datatype Delta = Up(steps: nat) | Down(steps: nat) | NoChange | Unknown

  /** A numeric previous rank is on record (not missing, `None` or "N/A"). */
  predicate Known(prev: Option<StoredRank>) {
    prev.Some? && prev.value.RankValue?
  }

  /** `rank_change(old, new)`. With a numeric previous rank, the current
      rank must be a number too: the subtraction raises otherwise. */
  function RankChange(prev: Option<StoredRank>, cur: Option<int>): (d: Delta)
    requires Known(prev) ==> cur.Some?
    ensures d == Unknown <==> !Known(prev)
    ensures (d.Up? || d.Down?) ==> d.steps > 0
  {
    if !Known(prev) then Unknown
    else
      var diff := prev.value.n - cur.value;
      if diff > 0 then Up(diff)
      else if diff < 0 then Down(-diff)
      else NoChange
  }

  /** The previous rank implied by the current rank and a known delta. */
  function Previous(cur: int, d: Delta): int
    requires !d.Unknown?
  {
    match d
    case Up(n) => cur + n
    case Down(n) => cur - n
    case NoChange => cur
  }

  /** A smaller rank number is an improvement: the direction follows the
      sign of previous minus current. */
  lemma RankChangeDirection(p: int, c: int)
    ensures RankChange(Some(RankValue(p)), Some(c)).Up? <==> p > c
    ensures RankChange(Some(RankValue(p)), Some(c)).Down? <==> p < c
    ensures RankChange(Some(RankValue(p)), Some(c)) == NoChange <==> p == c
  {
  }

  /** The delta loses nothing: the previous rank is recovered from it. */
  lemma RankChangeRecoversPrevious(p: int, c: int)
    ensures Previous(c, RankChange(Some(RankValue(p)), Some(c))) == p
  {
  }

  /** Every known delta with a positive step count arises from exactly one previous rank. */
  lemma RankChangeOfPrevious(c: int, d: Delta)
    requires !d.Unknown?
    requires (d.Up? || d.Down?) ==> d.steps > 0
    ensures RankChange(Some(RankValue(Previous(c, d))), Some(c)) == d
  {
  }

  /** Swapping the two observations swaps Up and Down. */
  lemma RankChangeSwap(p: int, c: int)
    ensures RankChange(Some(RankValue(p)), Some(c)).Up? <==> RankChange(Some(RankValue(c)), Some(p)).Down?
    ensures RankChange(Some(RankValue(p)), Some(c)).Up? ==>
              RankChange(Some(RankValue(c)), Some(p)) == Down(RankChange(Some(RankValue(p)), Some(c)).steps)
  {
  }

  /** The text of the "Rank Delta" column. */
  function DeltaText(d: Delta): string
  {
    match d
    case Up(n) => "Up " + Decimal(n)
    case Down(n) => "Down " + Decimal(n)
    case NoChange => "No change"
    case Unknown => ""
  }

  /** The "Rank Delta" text for two numeric ranks: "Up" by how much the rank
      number fell, "Down" by how much it rose, else "No change". */
  lemma RankChangeText(p: int, c: int)
    ensures p > c ==> DeltaText(RankChange(Some(RankValue(p)), Some(c))) == "Up " + Decimal(p - c)
    ensures p < c ==> DeltaText(RankChange(Some(RankValue(p)), Some(c))) == "Down " + Decimal(c - p)
    ensures p == c ==> DeltaText(RankChange(Some(RankValue(p)), Some(c))) == "No change"
  {
  }

  /** With no numeric previous rank the text is blank, whatever the current rank. */
  lemma RankChangeBlank(prev: Option<StoredRank>, cur: Option<int>)
    requires !Known(prev)
    ensures DeltaText(RankChange(prev, cur)) == ""
  {
  }

  /** The first character of a delta's text tells which kind it is. */
  lemma DeltaTextHead(d: Delta)
    ensures DeltaText(d) == [] <==> d.Unknown?
    ensures DeltaText(d) != [] ==> (DeltaText(d)[0] == 'U' <==> d.Up?)
    ensures DeltaText(d) != [] ==> (DeltaText(d)[0] == 'D' <==> d.Down?)
    ensures DeltaText(d) != [] ==> (DeltaText(d)[0] == 'N' <==> d.NoChange?)
  {
  }

  /** Different deltas are shown differently, and only an unknown one is blank. */
  lemma DeltaTextInjective(a: Delta, b: Delta)
    ensures DeltaText(a) == DeltaText(b) ==> a == b
    ensures DeltaText(a) == "" <==> a == Unknown
  {
    DeltaTextHead(a);
    DeltaTextHead(b);
    if DeltaText(a) == DeltaText(b) {
      var t := DeltaText(a);
      if a.Up? && b.Up? {
        assert Decimal(a.steps) == t[3..] == Decimal(b.steps);
        DecimalInjective(a.steps, b.steps);
      } else if a.Down? && b.Down? {
        assert Decimal(a.steps) == t[5..] == Decimal(b.steps);
        DecimalInjective(a.steps, b.steps);
      }
    }
  }
}
