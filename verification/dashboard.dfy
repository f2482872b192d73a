/**
 * The user's dashboard: for each of the seller's listings the status
 * badge, the largest bid, the accepted bid, the bid count and the three
 * largest bids; for each of the buyer's bids the two status badges.
 */
module Dashboard {
  import opened Wrappers
  import opened Domain
  import opened Text
  import opened Bidding

  /** `statusConfig[status] ?? statusConfig.ativo`: an unknown status is shown as active. */
  function ListingBadge(raw: string): (badge: string)
    ensures forall s :: ListingStatusName(s) == raw ==> badge == ListingStatusLabel(s)
    ensures ParseListingStatus(raw).None? ==> badge == "Ativo"
  {
    match ParseListingStatus(raw)
    case None => ListingStatusLabel(Ativo)
    case Some(s) => ListingStatusLabel(s)
  }

  /** The badge text of each bid status on the buyer's tab. */
  function BidStatusLabel(s: BidStatus): string {
    match s
    case Pendente => "Pendente"
    case Aceito => "Aceito!"
  }

  /** `lanceStatusConfig[status] ?? lanceStatusConfig.pendente`: an unknown status is shown as pending. */
  function BidBadge(raw: string): (badge: string)
    ensures forall s :: BidStatusName(s) == raw ==> badge == BidStatusLabel(s)
    ensures ParseBidStatus(raw).None? ==> badge == "Pendente"
  {
    match ParseBidStatus(raw)
    case None => BidStatusLabel(Pendente)
    case Some(s) => BidStatusLabel(s)
  }

  /** Different statuses get different badges, so the badge tells the status. */
  lemma BadgesTellStatus(s: ListingStatus, t: ListingStatus, b: BidStatus, c: BidStatus)
    ensures ListingStatusLabel(s) == ListingStatusLabel(t) ==> s == t
    ensures BidStatusLabel(b) == BidStatusLabel(c) ==> b == c
  {
  }

  /** `Math.max(...lances.map(l => l.valor))`, or nothing for a listing without bids. */
  function MaxAmount(bids: seq<Bid>): (r: Option<Cents>)
    ensures r.None? <==> bids == []
    ensures r.Some? ==> (exists k :: 0 <= k < |bids| && bids[k].amount == r.value)
                        && forall k :: 0 <= k < |bids| ==> bids[k].amount <= r.value
  {
    if bids == [] then None
    else
      var rest := MaxAmount(bids[1..]);
      assert forall k :: 1 <= k < |bids| ==> bids[k] == bids[1..][k - 1];
      if rest.Some? && rest.value > bids[0].amount then rest else Some(bids[0].amount)
  }

  /**
   * On bids in amount order the detail page's "first bid" and the
   * dashboard's maximum are the same amount.
   */
  lemma MaxLanceIsMaxAmount(bids: seq<Bid>)
    requires SortedByAmountDesc(bids)
    ensures MaxLance(bids) == MaxAmount(bids)
  {
    if bids != [] {
      var m := MaxAmount(bids).value;
      var k :| 0 <= k < |bids| && bids[k].amount == m;
      assert bids[0].amount >= bids[k].amount;
    }
  }

  /**
   * What `{maxLance && (...)}` renders: nothing when there are no bids (`null`),
   * a bare "0" when the maximum is zero (React prints a falsy number), and
   * otherwise the "Maior" line with the maximum.
   */
  datatype MaxLineView = NoLine | StrayZero | MaiorLine(amount: Cents)

  function MaxLine(bids: seq<Bid>): (v: MaxLineView)
    ensures v == NoLine <==> bids == []
    ensures v == StrayZero <==> bids != [] && (forall k :: 0 <= k < |bids| ==> bids[k].amount <= 0)
                                           && (exists k :: 0 <= k < |bids| && bids[k].amount == 0)
    ensures v.MaiorLine? ==> v.amount != 0 && (exists k :: 0 <= k < |bids| && bids[k].amount == v.amount)
                             && forall k :: 0 <= k < |bids| ==> bids[k].amount <= v.amount
  {
    match MaxAmount(bids)
    case None => NoLine
    case Some(m) => if m == 0 then StrayZero else MaiorLine(m)
  }

  /** The first `n` bids of `a` are in amount order, largest first. */
  ghost predicate PrefixDescending(a: array<Bid>, n: int)
    reads a
  {
    forall p, q :: 0 <= p < q < n && q < a.Length ==> a[p].amount >= a[q].amount
  }

  /**
   * `lances.sort((a, b) => b.valor - a.valor)`, which reorders the array in
   * place: afterwards it holds the same bids, largest amount first.
   */
  method SortByAmountDesc(a: array<Bid>)
    modifies a
    ensures SortedByAmountDesc(a[..])
    ensures multiset(a[..]) == multiset(old(a[..]))
  {
    var i := 1;
    while i < a.Length
      invariant PrefixDescending(a, i)
      invariant multiset(a[..]) == multiset(old(a[..]))
    {
      InsertDown(a, i);
      i := i + 1;
    }
  }

  /** One step of the insertion sort: moves `a[i]` down into the sorted prefix `a[..i]`. */
  method InsertDown(a: array<Bid>, i: int)
    requires 0 < i < a.Length && PrefixDescending(a, i)
    modifies a
    ensures PrefixDescending(a, i + 1)
    ensures multiset(a[..]) == multiset(old(a[..]))
  {
    var j := i;
    while j > 0 && a[j - 1].amount < a[j].amount
      invariant 0 <= j <= i
      invariant forall p, q :: 0 <= p < q <= i && q != j ==> a[p].amount >= a[q].amount
      invariant forall p, q :: 0 <= p < j < q <= i ==> a[p].amount >= a[q].amount
      invariant multiset(a[..]) == multiset(old(a[..]))
    {
      SwapDown(a, j);
      j := j - 1;
    }
  }

  /** Exchanges `a[j - 1]` and `a[j]`, leaving the rest of the array alone. */
  method SwapDown(a: array<Bid>, j: int)
    requires 0 < j < a.Length
    modifies a
    ensures a[j - 1] == old(a[j]) && a[j] == old(a[j - 1])
    ensures forall k :: 0 <= k < a.Length && k != j - 1 && k != j ==> a[k] == old(a[k])
    ensures multiset(a[..]) == multiset(old(a[..]))
  {
    a[j - 1], a[j] := a[j], a[j - 1];
  }

  /** `.slice(0, 3)`: the first three, or all when there are fewer. */
  function TopThree(sorted: seq<Bid>): (r: seq<Bid>)
    ensures |r| == if |sorted| < 3 then |sorted| else 3
    ensures r == sorted[..|r|]
  {
    if |sorted| < 3 then sorted else sorted[..3]
  }

  /** After the sort, no bid left out of the quick list is larger than one in it. */
  lemma TopThreeAreLargest(sorted: seq<Bid>)
    requires SortedByAmountDesc(sorted)
    ensures forall s, k :: s in TopThree(sorted) && |TopThree(sorted)| <= k < |sorted| ==> sorted[k].amount <= s.amount
  {
    var top := TopThree(sorted);
    forall s, k | s in top && |top| <= k < |sorted|
      ensures sorted[k].amount <= s.amount
    {
      var i :| 0 <= i < |top| && top[i] == s;
      assert sorted[i] == s;
    }
  }

  /** `+{n - 3} mais...` under the quick list, shown for more than three bids. */
  function MoreText(n: nat): (r: Option<string>)
    ensures r.Some? <==> n > 3
    ensures r.Some? ==> r.value == "+" + NatToString(n - 3) + " mais..."
  {
    if n > 3 then Some("+" + NatToString(n - 3) + " mais...") else None
  }

  /**
   * The quick list and the "mais" line account for every bid exactly once:
   * the bids left out follow the quick list, and the line appears exactly
   * when some are left out, with their number.
   */
  lemma QuickListCoversAll(sorted: seq<Bid>)
    ensures var rest := sorted[|TopThree(sorted)|..];
      && TopThree(sorted) + rest == sorted
      && (MoreText(|sorted|).Some? <==> rest != [])
      && (rest != [] ==> MoreText(|sorted|) == Some("+" + NatToString(|rest|) + " mais..."))
  {
  }

  /** The badge of a row of the quick list. */
  function QuickRowBadge(b: Bid): (badge: string)
    ensures badge == "Aceito" <==> b.status == Aceito
    ensures badge == "Pendente" <==> b.status == Pendente
  {
    assert "Pendente"[0] != "Aceito"[0];
    match b.status
    case Aceito => "Aceito"
    case Pendente => "Pendente"
  }
}
