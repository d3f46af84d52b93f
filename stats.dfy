/**
 * The statistics card (components/FunStatsDisplay.tsx): total and average
 * spend, the biggest and smallest spender, the person closest to the
 * average, the gap between the extremes and the "sponsor", the name that
 * the settlement tells others to pay the most.
 */
module Stats {
  import opened Options
  import opened Numbers
  import opened People

  /** A person with their share of the total spend, in percent. */
  datatype Ranked = Ranked(person: Person, percentageOfTotal: real)

  /** A person with the distance of their spend from the average. */
  datatype Balanced = Balanced(person: Person, diffFromAverage: real)

  /** The name that is owed the most across all instructions, and how much. */
  datatype Sponsor = Sponsor(name: string, amountOwed: real)

  datatype FunStats = FunStats(
    totalSpent: real,
    averageSpent: real,
    bigSpender: Option<Ranked>,
    pennyPincher: Option<Ranked>,
    perfectBalancePerson: Option<Balanced>,
    wealthDisparity: real,
    sponsor: Option<Sponsor>)

  // ---------------------------------------------------------------------------
  // Extremes

  /**
   * The position `people.reduce` keeps when it replaces the running maximum
   * only on a strictly larger spend: the first of the biggest spenders.
   */
  function BiggestSpender(people: seq<Person>): (i: nat)
    requires |people| > 0
    ensures i < |people|
    ensures forall j :: 0 <= j < |people| ==> people[j].amountSpent <= people[i].amountSpent
    ensures forall j :: 0 <= j < i ==> people[j].amountSpent < people[i].amountSpent
  {
    if |people| == 1 then 0
    else
      var last := |people| - 1;
      var i := BiggestSpender(people[..last]);
      assert forall j :: 0 <= j < last ==> people[..last][j] == people[j];
      if people[last].amountSpent > people[i].amountSpent then last else i
  }

  /** The same with a strictly smaller spend: the first of the smallest spenders. */
  function SmallestSpender(people: seq<Person>): (i: nat)
    requires |people| > 0
    ensures i < |people|
    ensures forall j :: 0 <= j < |people| ==> people[i].amountSpent <= people[j].amountSpent
    ensures forall j :: 0 <= j < i ==> people[i].amountSpent < people[j].amountSpent
  {
    if |people| == 1 then 0
    else
      var last := |people| - 1;
      var i := SmallestSpender(people[..last]);
      assert forall j :: 0 <= j < last ==> people[..last][j] == people[j];
      if people[last].amountSpent < people[i].amountSpent then last else i
  }

  /**
   * The head of the list stably sorted by distance from `average`: the
   * first of the people whose spend is closest to it.
   */
  function ClosestToAverage(people: seq<Person>, average: real): (i: nat)
    requires |people| > 0
    ensures i < |people|
    ensures forall j :: 0 <= j < |people| ==> Abs(people[i].amountSpent - average) <= Abs(people[j].amountSpent - average)
    ensures forall j :: 0 <= j < i ==> Abs(people[i].amountSpent - average) < Abs(people[j].amountSpent - average)
  {
    if |people| == 1 then 0
    else
      var last := |people| - 1;
      var i := ClosestToAverage(people[..last], average);
      assert forall j :: 0 <= j < last ==> people[..last][j] == people[j];
      if Abs(people[last].amountSpent - average) < Abs(people[i].amountSpent - average) then last else i
  }

  /** `amount / total * 100`, or 0 when nothing was spent. */
  function PercentageOfTotal(amount: real, total: real): real
  {
    if total > 0.0 then amount / total * 100.0 else 0.0
  }

  /** With no negative spend, nobody spent more than the total. */
  lemma {:induction false} SpendAtMostTotal(people: seq<Person>, i: nat)
    requires i < |people|
    requires forall j :: 0 <= j < |people| ==> people[j].amountSpent >= 0.0
    ensures 0.0 <= people[i].amountSpent <= Total(people)
  {
    var last := |people| - 1;
    TotalNonNegative(people[..last]);
    if i < last {
      SpendAtMostTotal(people[..last], i);
    }
  }

  lemma {:induction false} TotalNonNegative(people: seq<Person>)
    requires forall j :: 0 <= j < |people| ==> people[j].amountSpent >= 0.0
    ensures Total(people) >= 0.0
  {
    if people != [] {
      TotalNonNegative(people[..|people| - 1]);
    }
  }

  /** With no negative spend, every share of the total is a percentage between 0 and 100. */
  lemma PercentageInRange(people: seq<Person>, i: nat)
    requires i < |people|
    requires forall j :: 0 <= j < |people| ==> people[j].amountSpent >= 0.0
    ensures 0.0 <= PercentageOfTotal(people[i].amountSpent, Total(people)) <= 100.0
  {
    SpendAtMostTotal(people, i);
    ShareInRange(people[i].amountSpent, Total(people));
  }

  /** A part of a total, neither negative nor above it, is between 0 and 100 percent of it. */
  lemma ShareInRange(amount: real, total: real)
    requires 0.0 <= amount <= total
    ensures 0.0 <= PercentageOfTotal(amount, total) <= 100.0
    ensures total == 0.0 ==> PercentageOfTotal(amount, total) == 0.0
  {
    if total > 0.0 {
      var q := amount / total;
      assert q * total == amount;
      assert q <= 1.0;
    }
  }

  // ---------------------------------------------------------------------------
  // The sponsor tally

  /** What the instructions tell others to pay `name`, in total. */
  function Received(transactions: seq<Transaction>, name: string): real
  {
    if transactions == [] then 0.0
    else
      var last := transactions[|transactions| - 1];
      Received(transactions[..|transactions| - 1], name) + (if last.to == name then last.amount else 0.0)
  }

  /** Taking one more instruction adds its amount to its payee's total and to no one else's. */
  lemma ReceivedStep(transactions: seq<Transaction>, k: nat)
    requires k < |transactions|
    ensures forall n :: Received(transactions[..k + 1], n)
                     == Received(transactions[..k], n) + (if transactions[k].to == n then transactions[k].amount else 0.0)
  {
    assert transactions[..k + 1][..k] == transactions[..k];
  }

  /** A name is added to the tally's keys the first time it is seen. */
  function AddKey(keys: seq<string>, name: string): seq<string>
  {
    if name in keys then keys else keys + [name]
  }

  /** Everyone's name, each once, in order of first appearance. */
  function NameKeys(people: seq<Person>): (keys: seq<string>)
    ensures forall n :: n in keys <==> exists i :: 0 <= i < |people| && people[i].name == n
  {
    if people == [] then []
    else
      var front := people[..|people| - 1];
      assert forall i :: 0 <= i < |front| ==> front[i] == people[i];
      AddKey(NameKeys(front), people[|people| - 1].name)
  }

  /** The keys after the payees of `transactions` that are not keys yet are added in order. */
  function PayeeKeys(keys: seq<string>, transactions: seq<Transaction>): (r: seq<string>)
    ensures forall n :: n in r <==> n in keys || exists k :: 0 <= k < |transactions| && transactions[k].to == n
  {
    if transactions == [] then keys
    else
      var front := transactions[..|transactions| - 1];
      assert forall k :: 0 <= k < |front| ==> front[k] == transactions[k];
      AddKey(PayeeKeys(keys, front), transactions[|transactions| - 1].to)
  }

  /** The tally's keys in insertion order: everyone's name, then any payee not among them. */
  function TallyKeys(people: seq<Person>, transactions: seq<Transaction>): seq<string>
  {
    PayeeKeys(NameKeys(people), transactions)
  }

  /**
   * The `for ... in` scan over the keys: the first key with the largest total,
   * replacing the running best only on a strictly larger total, from 0 and "".
   */
  function Leader(keys: seq<string>, transactions: seq<Transaction>): (string, real)
  {
    if keys == [] then ("", 0.0)
    else
      var best := Leader(keys[..|keys| - 1], transactions);
      var owed := Received(transactions, keys[|keys| - 1]);
      if owed > best.1 then (keys[|keys| - 1], owed) else best
  }

  /** The sponsor as the card reports it: none without instructions or when nobody is owed more than half a cent. */
  function SponsorOf(people: seq<Person>, transactions: seq<Transaction>): Option<Sponsor>
  {
    if transactions == [] then None
    else
      var best := Leader(TallyKeys(people, transactions), transactions);
      if best.1 > 0.005 then Some(Sponsor(best.0, best.1)) else None
  }

  /**
   * The scan finds the largest total among the keys (or 0 when all are
   * smaller), the key it belongs to, and no earlier key with that total.
   */
  lemma {:induction false} LeaderIsFirstLargest(keys: seq<string>, transactions: seq<Transaction>)
    ensures var best := Leader(keys, transactions);
      && best.1 >= 0.0
      && (forall k :: 0 <= k < |keys| ==> Received(transactions, keys[k]) <= best.1)
      && (best.1 > 0.0 ==> exists i :: 0 <= i < |keys| && keys[i] == best.0 && Received(transactions, best.0) == best.1
                                       && forall k :: 0 <= k < i ==> Received(transactions, keys[k]) < best.1)
  {
    if keys != [] {
      var front := keys[..|keys| - 1];
      LeaderIsFirstLargest(front, transactions);
      assert forall k :: 0 <= k < |front| ==> front[k] == keys[k];
    }
  }

  /** A name nobody is told to pay has received nothing. */
  lemma {:induction false} ReceivedNothing(transactions: seq<Transaction>, name: string)
    requires forall k :: 0 <= k < |transactions| ==> transactions[k].to != name
    ensures Received(transactions, name) == 0.0
  {
    if transactions != [] {
      ReceivedNothing(transactions[..|transactions| - 1], name);
    }
  }

  /** With no negative amounts, a payee has received at least each single amount paid to them. */
  lemma {:induction false} ReceivedAtLeast(transactions: seq<Transaction>, k: nat)
    requires k < |transactions|
    requires forall j :: 0 <= j < |transactions| ==> transactions[j].amount >= 0.0
    ensures Received(transactions, transactions[k].to) >= transactions[k].amount
  {
    var last := |transactions| - 1;
    ReceivedNonNegative(transactions[..last], transactions[k].to);
    if k < last {
      ReceivedAtLeast(transactions[..last], k);
    }
  }

  lemma {:induction false} ReceivedNonNegative(transactions: seq<Transaction>, name: string)
    requires forall j :: 0 <= j < |transactions| ==> transactions[j].amount >= 0.0
    ensures Received(transactions, name) >= 0.0
  {
    if transactions != [] {
      ReceivedNonNegative(transactions[..|transactions| - 1], name);
    }
  }

  /**
   * The sponsor is a name that is owed more than half a cent and at least as
   * much as any participant or payee; when there is none, nobody is owed more
   * than half a cent (or there are no instructions at all).
   */
  lemma SponsorIsTopPayee(people: seq<Person>, transactions: seq<Transaction>)
    ensures match SponsorOf(people, transactions)
      case Some(s) =>
        && s.amountOwed > 0.005 && s.amountOwed == Received(transactions, s.name)
        && (exists k :: 0 <= k < |transactions| && transactions[k].to == s.name)
        && (forall k :: 0 <= k < |transactions| ==> Received(transactions, transactions[k].to) <= s.amountOwed)
        && (forall i :: 0 <= i < |people| ==> Received(transactions, people[i].name) <= s.amountOwed)
      case None =>
        forall k :: 0 <= k < |transactions| ==> Received(transactions, transactions[k].to) <= 0.005
  {
    if transactions != [] {
      var keys := TallyKeys(people, transactions);
      LeaderIsFirstLargest(keys, transactions);
      var best := Leader(keys, transactions);
      forall k | 0 <= k < |transactions| ensures Received(transactions, transactions[k].to) <= best.1 {
        assert transactions[k].to in keys;
      }
      forall i | 0 <= i < |people| ensures Received(transactions, people[i].name) <= best.1 {
        assert people[i].name in NameKeys(people);
        assert people[i].name in keys;
      }
      if best.1 > 0.005 {
        if forall k :: 0 <= k < |transactions| ==> transactions[k].to != best.0 {
          ReceivedNothing(transactions, best.0);
        }
      }
    }
  }

  /** Whenever there are instructions, all of at least a cent, there is a sponsor. */
  lemma SponsorWhenPaymentsDue(people: seq<Person>, transactions: seq<Transaction>)
    requires |transactions| > 0
    requires forall k :: 0 <= k < |transactions| ==> transactions[k].amount >= 0.01
    ensures SponsorOf(people, transactions).Some?
  {
    ReceivedAtLeast(transactions, 0);
    SponsorIsTopPayee(people, transactions);
  }

  /**
   * The tally as the component computes it: a dictionary with every
   * participant's name at 0, each instruction's amount added to its payee,
   * then a scan of the keys in insertion order for the strictly largest total.
   */
  method TallySponsor(people: seq<Person>, transactions: seq<Transaction>) returns (sponsor: Option<Sponsor>)
    ensures sponsor == SponsorOf(people, transactions)
  {
    if |transactions| == 0 {
      return None;
    }
    var keys, owedTo := StartTally(people);
    keys, owedTo := AddPayments(people, transactions, keys, owedTo);
    var sponsorName, maxOwed := ScanForSponsor(transactions, keys, owedTo);
    if maxOwed > 0.005 {
      sponsor := Some(Sponsor(sponsorName, maxOwed));
    } else {
      sponsor := None;
    }
  }

  /** `people.forEach(p => owedToMap[p.name] = 0)`: every participant's name, first appearance first, at 0. */
  method StartTally(people: seq<Person>) returns (keys: seq<string>, owedTo: map<string, real>)
    ensures keys == NameKeys(people)
    ensures forall n :: n in owedTo <==> n in keys
    ensures forall n :: n in owedTo ==> owedTo[n] == 0.0
  {
    keys, owedTo := [], map[];
    for i := 0 to |people|
      invariant keys == NameKeys(people[..i])
      invariant forall n :: n in owedTo <==> n in keys
      invariant forall n :: n in owedTo ==> owedTo[n] == 0.0
    {
      assert people[..i + 1][..i] == people[..i];
      keys := AddKey(keys, people[i].name);
      owedTo := owedTo[people[i].name := 0.0];
    }
    assert people[..|people|] == people;
  }

  /** `transactions.forEach(t => owedToMap[t.to] = (owedToMap[t.to] || 0) + t.amount)`. */
  method AddPayments(people: seq<Person>, transactions: seq<Transaction>, keys0: seq<string>, owedTo0: map<string, real>)
    returns (keys: seq<string>, owedTo: map<string, real>)
    requires keys0 == NameKeys(people)
    requires forall n :: n in owedTo0 <==> n in keys0
    requires forall n :: n in owedTo0 ==> owedTo0[n] == 0.0
    ensures keys == TallyKeys(people, transactions)
    ensures forall n :: n in owedTo <==> n in keys
    ensures forall n :: Received(transactions, n) == if n in owedTo then owedTo[n] else 0.0
  {
    keys, owedTo := keys0, owedTo0;
    assert transactions[..0] == [];
    for k := 0 to |transactions|
      invariant keys == PayeeKeys(keys0, transactions[..k])
      invariant forall n :: n in owedTo <==> n in keys
      invariant forall n :: Received(transactions[..k], n) == if n in owedTo then owedTo[n] else 0.0
    {
      var t := transactions[k];
      assert transactions[..k + 1][..k] == transactions[..k];
      ReceivedStep(transactions, k);
      keys := AddKey(keys, t.to);
      owedTo := owedTo[t.to := (if t.to in owedTo then owedTo[t.to] else 0.0) + t.amount];
    }
    assert transactions[..|transactions|] == transactions;
  }

  /** The `for (const name in owedToMap)` scan for the strictly largest total. */
  method ScanForSponsor(transactions: seq<Transaction>, keys: seq<string>, owedTo: map<string, real>)
    returns (sponsorName: string, maxOwed: real)
    requires forall n :: n in owedTo <==> n in keys
    requires forall n :: n in owedTo ==> owedTo[n] == Received(transactions, n)
    ensures (sponsorName, maxOwed) == Leader(keys, transactions)
  {
    maxOwed, sponsorName := 0.0, "";
    for i := 0 to |keys|
      invariant (sponsorName, maxOwed) == Leader(keys[..i], transactions)
    {
      assert keys[..i + 1][..i] == keys[..i];
      assert keys[i] in owedTo;
      if owedTo[keys[i]] > maxOwed {
        maxOwed := owedTo[keys[i]];
        sponsorName := keys[i];
      }
    }
    assert keys[..|keys|] == keys;
  }

  // ---------------------------------------------------------------------------
  // The whole card

  /** The statistics the card shows, as a function of the two lists. */
  function StatsOf(people: seq<Person>, transactions: seq<Transaction>): FunStats
  {
    if people == [] then FunStats(0.0, 0.0, None, None, None, 0.0, None)
    else
      var total := Total(people);
      var average := Average(people);
      var big := people[BiggestSpender(people)];
      var small := people[SmallestSpender(people)];
      var closest := people[ClosestToAverage(people, average)];
      FunStats(total, average,
               Some(Ranked(big, PercentageOfTotal(big.amountSpent, total))),
               Some(Ranked(small, PercentageOfTotal(small.amountSpent, total))),
               Some(Balanced(closest, Abs(closest.amountSpent - average))),
               big.amountSpent - small.amountSpent,
               SponsorOf(people, transactions))
  }

  /** The `useMemo` computation: the pure parts, then the tally. */
  method ComputeStats(people: seq<Person>, transactions: seq<Transaction>) returns (stats: FunStats)
    ensures stats == StatsOf(people, transactions)
  {
    if |people| == 0 {
      return FunStats(0.0, 0.0, None, None, None, 0.0, None);
    }
    var total := Total(people);
    var average := total / |people| as real;
    var big := people[BiggestSpender(people)];
    var small := people[SmallestSpender(people)];
    var closest := people[ClosestToAverage(people, average)];
    var sponsor := TallySponsor(people, transactions);
    stats := FunStats(total, average,
                      Some(Ranked(big, PercentageOfTotal(big.amountSpent, total))),
                      Some(Ranked(small, PercentageOfTotal(small.amountSpent, total))),
                      Some(Balanced(closest, Abs(closest.amountSpent - average))),
                      big.amountSpent - small.amountSpent,
                      sponsor);
  }

  /**
   * On a nonempty list every extreme is filled in; the gap between the
   * biggest and smallest spender is the spread of all spends, so it is never
   * negative and every spend lies within it.
   */
  lemma StatsExtremes(people: seq<Person>, transactions: seq<Transaction>)
    requires |people| > 0
    ensures var s := StatsOf(people, transactions);
      && s.bigSpender.Some? && s.pennyPincher.Some? && s.perfectBalancePerson.Some?
      && s.wealthDisparity >= 0.0
      && s.wealthDisparity == s.bigSpender.value.person.amountSpent - s.pennyPincher.value.person.amountSpent
      && (forall j :: 0 <= j < |people| ==>
            s.pennyPincher.value.person.amountSpent <= people[j].amountSpent <= s.bigSpender.value.person.amountSpent)
  {
  }
}
