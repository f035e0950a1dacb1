/**
 * `ContributorsAPI.getRankBadge` and `getRankClass`: the medal tiers for
 * ranks 1, 2 and 3 and a default for every other rank, which the badge
 * spells as `#` followed by the rank in decimal.
 */
module ContributorRanks {
  import opened ContributorMerge

  const Gold: string := "\U{1F947}"
  const Silver: string := "\U{1F948}"
  const Bronze: string := "\U{1F949}"

  /** `getRankBadge(rank)`. */
  function RankBadge(rank: int): (badge: string)
    ensures |badge| == 1 <==> 1 <= rank <= 3
    ensures !(1 <= rank <= 3) ==> |badge| >= 2 && badge[0] == '#' && badge[1..] == IntToDecimal(rank)
  {
    if rank == 1 then Gold
    else if rank == 2 then Silver
    else if rank == 3 then Bronze
    else "#" + IntToDecimal(rank)
  }

  /** `getRankClass(rank)`. */
  function RankClass(rank: int): (cls: string)
    ensures cls == "rank-default" <==> !(1 <= rank <= 3)
  {
    if rank == 1 then "rank-gold"
    else if rank == 2 then "rank-silver"
    else if rank == 3 then "rank-bronze"
    else "rank-default"
  }

  /* ---------------------------------------------------------------- */
  /* Decimal text of an integer, as a template string prints it       */
  /* ---------------------------------------------------------------- */

  predicate IsDigit(c: char)
  {
    '0' <= c <= '9'
  }

  function Digit(d: nat): (c: char)
    requires d < 10
    ensures IsDigit(c)
  {
    (('0' as int) + d) as char
  }

  function DigitValue(c: char): nat
    requires IsDigit(c)
  {
    (c as int) - ('0' as int)
  }

  /** The decimal digits of `n`, most significant first, without leading zeros. */
  function NatToDecimal(n: nat): (s: string)
    ensures |s| >= 1
    ensures forall i :: 0 <= i < |s| ==> IsDigit(s[i])
    ensures |s| > 1 ==> s[0] != '0'
  {
    if n < 10 then [Digit(n)] else NatToDecimal(n / 10) + [Digit(n % 10)]
  }

  /** `${n}` for an integer `n`. */
  function IntToDecimal(n: int): string
  {
    if n < 0 then "-" + NatToDecimal(-n) else NatToDecimal(n)
  }

  /** Reads a string of digits back as a number. */
  function ParseDigits(s: string): nat
    requires forall i :: 0 <= i < |s| ==> IsDigit(s[i])
  {
    if s == [] then 0 else 10 * ParseDigits(s[..|s| - 1]) + DigitValue(s[|s| - 1])
  }

  /** Reads an optionally negative decimal back as a number. */
  function ParseDecimal(s: string): int
    requires |s| >= 1
    requires s[0] == '-' || IsDigit(s[0])
    requires forall i :: 1 <= i < |s| ==> IsDigit(s[i])
  {
    if s[0] == '-' then -(ParseDigits(s[1..]) as int) else ParseDigits(s)
  }

  lemma {:induction false} NatToDecimalRoundTrip(n: nat)
    ensures ParseDigits(NatToDecimal(n)) == n
  {
    if n >= 10 {
      var s := NatToDecimal(n);
      assert s[..|s| - 1] == NatToDecimal(n / 10);
      NatToDecimalRoundTrip(n / 10);
    } else {
      assert NatToDecimal(n)[..0] == [];
    }
  }

  /** Printing an integer and reading it back gives the integer. */
  lemma IntToDecimalRoundTrip(n: int)
    ensures ParseDecimal(IntToDecimal(n)) == n
  {
    if n < 0 {
      assert IntToDecimal(n)[1..] == NatToDecimal(-n);
      NatToDecimalRoundTrip(-n);
    } else {
      NatToDecimalRoundTrip(n);
    }
  }

  /* ---------------------------------------------------------------- */
  /* Properties of the tiers                                          */
  /* ---------------------------------------------------------------- */

  /**
   * Badge and class agree on the tier: both are special exactly for ranks
   * 1, 2 and 3, and every other rank gets `#<rank>` and `rank-default`.
   */
  lemma RankTiers(rank: int)
    ensures RankBadge(rank) == Gold <==> rank == 1
    ensures RankBadge(rank) == Silver <==> rank == 2
    ensures RankBadge(rank) == Bronze <==> rank == 3
    ensures RankClass(rank) == "rank-gold" <==> rank == 1
    ensures RankClass(rank) == "rank-silver" <==> rank == 2
    ensures RankClass(rank) == "rank-bronze" <==> rank == 3
    ensures RankClass(rank) == "rank-default" <==> !(1 <= rank <= 3)
    ensures !(1 <= rank <= 3) ==> RankBadge(rank)[0] == '#' && ParseDecimal(RankBadge(rank)[1..]) == rank
  {
    if !(1 <= rank <= 3) {
      assert RankBadge(rank)[1..] == IntToDecimal(rank);
      assert |RankBadge(rank)| >= 2;
      IntToDecimalRoundTrip(rank);
    }
  }

  /** Different ranks get different badges. */
  lemma RankBadgeInjective(a: int, b: int)
    requires RankBadge(a) == RankBadge(b)
    ensures a == b
  {
    RankTiers(a);
    RankTiers(b);
  }

  /** In a merged table no two rows share a badge. */
  lemma MergedBadgesDistinct(fw: seq<GitHubContributor>, sk: seq<GitHubContributor>)
    ensures forall i, j :: 0 <= i < j < |Merge(fw, sk)| ==>
              RankBadge(Merge(fw, sk)[i].rank) != RankBadge(Merge(fw, sk)[j].rank)
  {
    MergeOrder(fw, sk);
    forall i, j | 0 <= i < j < |Merge(fw, sk)|
      ensures RankBadge(Merge(fw, sk)[i].rank) != RankBadge(Merge(fw, sk)[j].rank)
    {
      if RankBadge(Merge(fw, sk)[i].rank) == RankBadge(Merge(fw, sk)[j].rank) {
        RankBadgeInjective(Merge(fw, sk)[i].rank, Merge(fw, sk)[j].rank);
      }
    }
  }
}
