/**
 * The rank shown in the game-over dialog: a threshold map from the final
 * score to one of four ranks.
 */
module GameOverModal {

  datatype Rank = Bronze | Silver | Gold | Platinum

  /** The label the dialog prints: one of the four rank names. */
  function Label(r: Rank): (s: string)
    ensures s == "Bronze" || s == "Silver" || s == "Gold" || s == "Platinum"
  {
    match r
    case Bronze => "Bronze"
    case Silver => "Silver"
    case Gold => "Gold"
    case Platinum => "Platinum"
  }

  /** Position of a rank in the order Bronze < Silver < Gold < Platinum. */
  function Level(r: Rank): nat {
    match r
    case Bronze => 0
    case Silver => 1
    case Gold => 2
    case Platinum => 3
  }

  /** getRank: 80 and above is Platinum, 50 to 79 Gold, 30 to 49 Silver, anything lower Bronze. */
  function GetRank(score: int): (r: Rank)
    ensures r == Platinum <==> 80 <= score
    ensures r == Gold <==> 50 <= score < 80
    ensures r == Silver <==> 30 <= score < 50
    ensures r == Bronze <==> score < 30
  {
    if score >= 80 then Platinum
    else if score >= 50 then Gold
    else if score >= 30 then Silver
    else Bronze
  }

  /** A higher score never earns a lower rank. */
  lemma RankMonotone(lo: int, hi: int)
    requires lo <= hi
    ensures Level(GetRank(lo)) <= Level(GetRank(hi))
  {
  }

  /** The four labels are distinct, so the printed rank determines the rank. */
  lemma LabelInjective(r1: Rank, r2: Rank)
    ensures Label(r1) == Label(r2) <==> r1 == r2
  {
  }

  /** getRank as the dialog prints it: the string for the score's band. */
  function RankLabel(score: int): (s: string)
    ensures s == "Platinum" <==> 80 <= score
    ensures s == "Gold" <==> 50 <= score < 80
    ensures s == "Silver" <==> 30 <= score < 50
    ensures s == "Bronze" <==> score < 30
  {
    Label(GetRank(score))
  }
}
