/**
 * `calculateSettlements` (utils/expenseCalculator.ts): every participant's
 * balance against the average, the debtors and creditors in the order the
 * stable sorts give them, and the greedy two-index matching that turns them
 * into payment instructions.
 *
 * The matching loop is specified by `Step` (one iteration) and `Run` (the
 * loop to its end) over a `Matching` state; `Settlements` is the whole
 * computation as a function and `CalculateSettlements` is the loop itself,
 * proved to compute it.
 */
module Settlement {
  import opened Options
  import opened Numbers
  import opened People

  /** A balance must exceed this magnitude to put a person in a list, and an amount to be paid. */
  const Threshold: real := 0.005
  /** A side whose remaining balance is smaller than this is settled: its index moves on. */
  const Settled: real := 0.01

  // ---------------------------------------------------------------------------
  // Balances and the two sorted lists

  /** A participant's balance; `index` is the participant's position in the input list. */
  datatype Entry = Entry(index: nat, id: Id, name: string, balance: real)

  datatype Side = Debtors | Creditors

  /** How far a person's spending is above (positive) or below (negative) the average. */
  function Balance(people: seq<Person>, i: nat): real
    requires i < |people|
  {
    people[i].amountSpent - Average(people)
  }

  function Balances(people: seq<Person>): seq<Entry>
  {
    seq(|people|, i requires 0 <= i < |people| => Entry(i, people[i].id, people[i].name, Balance(people, i)))
  }

  function BalancesOf(es: seq<Entry>): (bs: seq<real>)
    ensures |bs| == |es|
  {
    seq(|es|, k requires 0 <= k < |es| => es[k].balance)
  }

  /** The sum of a list of amounts. */
  function SumOf(s: seq<real>): real
  {
    if s == [] then 0.0 else SumOf(s[..|s| - 1]) + s[|s| - 1]
  }

  /** The balances of a nonempty list sum to zero: what debtors owe is what creditors are owed. */
  lemma BalancesSumToZero(people: seq<Person>)
    requires |people| > 0
    ensures SumOf(BalancesOf(Balances(people))) == 0.0
  {
    var es := Balances(people);
    var avg := Average(people);
    var n := |people|;
    PrefixBalances(people, n);
    assert es[..n] == es;
    assert people[..n] == people;
    assert avg * n as real == Total(people);
  }

  lemma {:induction false} PrefixBalances(people: seq<Person>, n: nat)
    requires 0 < |people| && n <= |people|
    ensures SumOf(BalancesOf(Balances(people)[..n])) == Total(people[..n]) - n as real * Average(people)
  {
    if n > 0 {
      PrefixBalances(people, n - 1);
      var avg := Average(people);
      SumOfBalancesStep(Balances(people), n);
      assert Balances(people)[n - 1].balance == people[n - 1].amountSpent - avg;
      assert people[..n][..n - 1] == people[..n - 1];
      assert Total(people[..n]) == Total(people[..n - 1]) + people[n - 1].amountSpent;
      assert n as real * avg == (n - 1) as real * avg + avg;
    }
  }

  /** Taking one more entry adds its balance to the sum. */
  lemma SumOfBalancesStep(es: seq<Entry>, n: nat)
    requires 0 < n <= |es|
    ensures SumOf(BalancesOf(es[..n])) == SumOf(BalancesOf(es[..n - 1])) + es[n - 1].balance
  {
    assert es[..n][..n - 1] == es[..n - 1];
    assert BalancesOf(es[..n])[..n - 1] == BalancesOf(es[..n - 1]);
  }

  predicate OnSide(e: Entry, side: Side)
  {
    match side
    case Debtors => e.balance < -Threshold
    case Creditors => e.balance > Threshold
  }

  /** The sort key: debtors ascending by balance (most owed first), creditors descending. */
  function Key(e: Entry, side: Side): real
  {
    match side
    case Debtors => e.balance
    case Creditors => -e.balance
  }

  predicate IndicesIncrease(es: seq<Entry>)
  {
    forall i, j :: 0 <= i < j < |es| ==> es[i].index < es[j].index
  }

  /** `balances.filter(...)`: the entries on one side, in their original order. */
  function Filter(es: seq<Entry>, side: Side): (r: seq<Entry>)
    ensures forall e :: e in r <==> e in es && OnSide(e, side)
  {
    if es == [] then []
    else if OnSide(es[0], side) then [es[0]] + Filter(es[1..], side)
    else Filter(es[1..], side)
  }

  /** Filtering keeps the entries in input order. */
  lemma {:induction false} FilterKeepsOrder(es: seq<Entry>, side: Side)
    requires IndicesIncrease(es)
    ensures IndicesIncrease(Filter(es, side))
  {
    if es != [] {
      var rest := Filter(es[1..], side);
      FilterKeepsOrder(es[1..], side);
      forall j | 0 <= j < |rest| ensures es[0].index < rest[j].index {
        assert rest[j] in es[1..];
        var k :| 0 <= k < |es[1..]| && es[1..][k] == rest[j];
        assert es[k + 1] == rest[j];
      }
    }
  }

  lemma {:induction false} FilterSizes(es: seq<Entry>)
    ensures |Filter(es, Debtors)| + |Filter(es, Creditors)| <= |es|
  {
    if es != [] {
      FilterSizes(es[1..]);
    }
  }

  /**
   * The order a stable sort by `Key` leaves: a smaller key first, and equal
   * keys in their original order.
   */
  predicate Precedes(a: Entry, b: Entry, side: Side)
  {
    Key(a, side) < Key(b, side) || (Key(a, side) == Key(b, side) && a.index < b.index)
  }

  predicate SortedBy(es: seq<Entry>, side: Side)
  {
    forall i, j :: 0 <= i < j < |es| ==> Precedes(es[i], es[j], side)
  }

  /** Puts x in front of the first entry whose key is not smaller than x's. */
  function Insert(x: Entry, es: seq<Entry>, side: Side): seq<Entry>
  {
    if es == [] || Key(x, side) <= Key(es[0], side) then [x] + es
    else [es[0]] + Insert(x, es[1..], side)
  }

  /** Inserting adds x and nothing else. */
  lemma {:induction false} InsertPermutes(x: Entry, es: seq<Entry>, side: Side)
    ensures multiset(Insert(x, es, side)) == multiset(es) + multiset{x}
  {
    if es != [] && Key(x, side) > Key(es[0], side) {
      InsertPermutes(x, es[1..], side);
      assert es == [es[0]] + es[1..];
    }
  }

  /** Inserting an entry that comes before all others in input order keeps the list sorted and stable. */
  lemma {:induction false} InsertSorted(x: Entry, es: seq<Entry>, side: Side)
    requires SortedBy(es, side)
    requires forall e :: e in es ==> x.index < e.index
    ensures SortedBy(Insert(x, es, side), side)
  {
    if es != [] && Key(x, side) > Key(es[0], side) {
      var rest := Insert(x, es[1..], side);
      InsertSorted(x, es[1..], side);
      InsertPermutes(x, es[1..], side);
      forall j | 0 <= j < |rest| ensures Precedes(es[0], rest[j], side) {
        assert rest[j] in multiset(rest);
        if rest[j] != x {
          assert rest[j] in es[1..];
          var k :| 0 <= k < |es[1..]| && es[1..][k] == rest[j];
          assert es[k + 1] == rest[j];
        }
      }
    }
  }

  /** A stable sort by `Key` (the engine's `Array.prototype.sort` is stable). */
  function Sort(es: seq<Entry>, side: Side): (r: seq<Entry>)
    requires IndicesIncrease(es)
    ensures multiset(r) == multiset(es)
    ensures SortedBy(r, side)
  {
    if es == [] then []
    else
      var rest := Sort(es[1..], side);
      assert es == [es[0]] + es[1..];
      FirstIndexSmallest(es, rest);
      InsertPermutes(es[0], rest, side);
      InsertSorted(es[0], rest, side);
      Insert(es[0], rest, side)
  }

  lemma FirstIndexSmallest(es: seq<Entry>, rest: seq<Entry>)
    requires IndicesIncrease(es) && |es| > 0
    requires multiset(rest) == multiset(es[1..])
    ensures forall e :: e in rest ==> es[0].index < e.index
  {
    forall e | e in rest ensures es[0].index < e.index {
      assert e in multiset(es[1..]);
      var j :| 0 <= j < |es[1..]| && es[1..][j] == e;
      assert es[j + 1] == e;
    }
  }

  /** `debtors` or `creditors` as the source builds them. */
  function Partition(people: seq<Person>, side: Side): seq<Entry>
  {
    var es := Balances(people);
    assert IndicesIncrease(es);
    FilterKeepsOrder(es, side);
    Sort(Filter(es, side), side)
  }

  /**
   * Each list holds exactly the participants whose balance is beyond the
   * threshold on its side, each once, ordered by key with ties in input order.
   */
  lemma PartitionSpec(people: seq<Person>, side: Side)
    ensures var p := Partition(people, side);
      && SortedBy(p, side)
      && (forall e :: e in p <==> e in Balances(people) && OnSide(e, side))
      && (forall k :: 0 <= k < |p| ==> p[k].index < |people| && p[k] == Balances(people)[p[k].index])
  {
    var es := Balances(people);
    assert IndicesIncrease(es);
    FilterKeepsOrder(es, side);
    var p := Partition(people, side);
    var f := Filter(es, side);
    assert multiset(p) == multiset(f);
    assert forall e :: e in p <==> e in multiset(f);
    forall k | 0 <= k < |p|
      ensures p[k].index < |people| && p[k] == es[p[k].index]
    {
      assert p[k] in multiset(p);
      assert p[k] in es;
    }
  }

  /** Every participant is in at most one of the lists, so together they are no longer than the input. */
  lemma PartitionSizes(people: seq<Person>)
    ensures |Partition(people, Debtors)| + |Partition(people, Creditors)| <= |people|
  {
    var es := Balances(people);
    assert IndicesIncrease(es);
    FilterKeepsOrder(es, Debtors);
    FilterKeepsOrder(es, Creditors);
    FilterSizes(es);
    assert |Partition(people, Debtors)| == |multiset(Partition(people, Debtors))| == |multiset(Filter(es, Debtors))|;
    assert |Partition(people, Creditors)| == |multiset(Partition(people, Creditors))| == |multiset(Filter(es, Creditors))|;
  }

  // ---------------------------------------------------------------------------
  // The matching loop

  /** A payment of `amount` (unrounded) from the debtor at list position `debtor` to the creditor at `creditor`. */
  datatype Transfer = Transfer(debtor: nat, creditor: nat, amount: real)

  /**
   * The loop's state: the remaining balances of the two lists (debts are
   * negative), the two cursors and the transfers recorded so far.
   */
  datatype Matching = Matching(debts: seq<real>, credits: seq<real>, di: nat, ci: nat, transfers: seq<Transfer>)

  /** Replacing one element changes the sum by the difference. */
  lemma {:induction false} SumOfUpdate(s: seq<real>, i: nat, v: real)
    requires i < |s|
    ensures SumOf(s[i := v]) == SumOf(s) - s[i] + v
  {
    var n := |s|;
    if i == n - 1 {
      assert s[i := v][..n - 1] == s[..n - 1];
    } else {
      assert s[i := v][..n - 1] == s[..n - 1][i := v];
      SumOfUpdate(s[..n - 1], i, v);
    }
  }

  predicate Active(m: Matching)
  {
    m.di < |m.debts| && m.ci < |m.credits|
  }

  /**
   * What the loop needs at every test of its condition: the cursors are in
   * range, debts stay at or below zero and credits at or above, and every
   * transfer names positions inside the two lists.
   */
  predicate Valid(m: Matching)
  {
    && m.di <= |m.debts| && m.ci <= |m.credits|
    && (forall i :: 0 <= i < |m.debts| ==> m.debts[i] <= 0.0)
    && (forall j :: 0 <= j < |m.credits| ==> m.credits[j] >= 0.0)
    && Fits(m.transfers, |m.debts|, |m.credits|)
  }

  /** Every transfer names positions inside lists of the given lengths. */
  predicate Fits(ts: seq<Transfer>, debtorCount: nat, creditorCount: nat)
  {
    forall k :: 0 <= k < |ts| ==> ts[k].debtor < debtorCount && ts[k].creditor < creditorCount
  }

  /**
   * What the loop guarantees about its progress so far: everyone the cursors
   * have passed is within a cent of settled; every transfer is above the
   * threshold and involves a debtor and a creditor at or before the cursors;
   * and the transfers move through the lists in order, never visiting the
   * same pair twice.
   */
  predicate Orderly(m: Matching)
    requires m.di <= |m.debts| && m.ci <= |m.credits|
  {
    && (forall i :: 0 <= i < m.di ==> Abs(m.debts[i]) < Settled)
    && (forall j :: 0 <= j < m.ci ==> Abs(m.credits[j]) < Settled)
    && (forall k :: 0 <= k < |m.transfers| ==> Behind(m.transfers[k], m))
    && (forall k, l :: 0 <= k < l < |m.transfers| ==> InOrder(m.transfers[k], m.transfers[l]))
  }

  /** A transfer above the threshold between positions the cursors have reached. */
  predicate Behind(t: Transfer, m: Matching)
  {
    && t.debtor <= m.di && t.creditor <= m.ci && t.debtor + t.creditor < m.di + m.ci
    && t.amount > Threshold
  }

  predicate InOrder(s: Transfer, t: Transfer)
  {
    s.debtor <= t.debtor && s.creditor <= t.creditor && s.debtor + s.creditor < t.debtor + t.creditor
  }

  /**
   * The first half of an iteration: the smaller of the current debt and
   * credit, when above the threshold, is recorded and moved between them.
   */
  function Pay(m: Matching): Matching
    requires Active(m)
  {
    var amount := Min(Abs(m.debts[m.di]), m.credits[m.ci]);
    if amount > Threshold then
      m.(debts := m.debts[m.di := m.debts[m.di] + amount],
         credits := m.credits[m.ci := m.credits[m.ci] - amount],
         transfers := m.transfers + [Transfer(m.di, m.ci, amount)])
    else m
  }

  /** One iteration of the loop body: pay, then move past whichever side is settled. */
  function Step(m: Matching): Matching
    requires Active(m)
  {
    var paid := Pay(m);
    paid.(di := if Abs(paid.debts[m.di]) < Settled then m.di + 1 else m.di,
          ci := if Abs(paid.credits[m.ci]) < Settled then m.ci + 1 else m.ci)
  }

  /**
   * An iteration keeps the state valid, moves at least one cursor forward
   * (so the loop ends) and appends at most one transfer.
   */
  lemma StepSound(m: Matching)
    requires Valid(m) && Active(m)
    ensures var r := Step(m);
      && Valid(r)
      && |r.debts| == |m.debts| && |r.credits| == |m.credits|
      && m.di <= r.di && m.ci <= r.ci && m.di + m.ci < r.di + r.ci
      && |m.transfers| <= |r.transfers| <= |m.transfers| + 1 && r.transfers[..|m.transfers|] == m.transfers
  {
    var d, c := m.debts[m.di], m.credits[m.ci];
    var amount := Min(Abs(d), c);
    var r := Step(m);
    if amount > Threshold {
      assert r.debts[m.di] == 0.0 || r.credits[m.ci] == 0.0;
      assert r.transfers == m.transfers + [Transfer(m.di, m.ci, amount)];
    } else {
      assert Abs(d) < Settled || c < Settled;
    }
  }

  /** An iteration moves money between the two sides without creating or losing any. */
  lemma StepConserves(m: Matching)
    requires Valid(m) && Active(m)
    ensures SumOf(Step(m).debts) + SumOf(Step(m).credits) == SumOf(m.debts) + SumOf(m.credits)
  {
    var d, c := m.debts[m.di], m.credits[m.ci];
    var amount := Min(Abs(d), c);
    if amount > Threshold {
      SumOfUpdate(m.debts, m.di, d + amount);
      SumOfUpdate(m.credits, m.ci, c - amount);
    }
  }

  /** An iteration keeps the loop's guarantees about what it has done. */
  lemma StepOrderly(m: Matching)
    requires Valid(m) && Active(m) && Orderly(m)
    ensures Valid(Step(m)) && Orderly(Step(m))
  {
    StepSound(m);
    var amount := Min(Abs(m.debts[m.di]), m.credits[m.ci]);
    var r := Step(m);
    if amount > Threshold {
      var t := Transfer(m.di, m.ci, amount);
      assert r.transfers == m.transfers + [t];
      forall k | 0 <= k < |r.transfers| ensures Behind(r.transfers[k], r) {
        if k < |m.transfers| {
          assert r.transfers[k] == m.transfers[k];
          assert Behind(m.transfers[k], m);
        }
      }
      forall k, l | 0 <= k < l < |r.transfers| ensures InOrder(r.transfers[k], r.transfers[l]) {
        assert r.transfers[k] == m.transfers[k];
        if l < |m.transfers| {
          assert r.transfers[l] == m.transfers[l];
        } else {
          assert Behind(m.transfers[k], m);
        }
      }
    } else {
      assert r.transfers == m.transfers;
      forall k | 0 <= k < |r.transfers| ensures Behind(r.transfers[k], r) {
        assert Behind(m.transfers[k], m);
      }
    }
  }

  /** Iterations until a cursor reaches the end of its list: the whole loop. */
  function Run(m: Matching): (r: Matching)
    requires Valid(m)
    ensures Valid(r) && !Active(r)
    ensures |r.debts| == |m.debts| && |r.credits| == |m.credits|
    ensures m.di <= r.di && m.ci <= r.ci
    ensures |m.transfers| <= |r.transfers| && r.transfers[..|m.transfers|] == m.transfers
    ensures Active(m) ==> |r.transfers| - |m.transfers| <= (|m.debts| - m.di) + (|m.credits| - m.ci) - 1
    ensures !Active(m) ==> r == m
    decreases |m.debts| - m.di + |m.credits| - m.ci
  {
    if Active(m) then
      StepSound(m);
      var s := Step(m);
      var r := Run(s);
      assert r.transfers[..|m.transfers|] == r.transfers[..|s.transfers|][..|m.transfers|];
      r
    else m
  }

  /** The loop as a whole neither creates nor loses money. */
  lemma {:induction false} RunConserves(m: Matching)
    requires Valid(m)
    ensures SumOf(Run(m).debts) + SumOf(Run(m).credits) == SumOf(m.debts) + SumOf(m.credits)
    decreases |m.debts| - m.di + |m.credits| - m.ci
  {
    if Active(m) {
      StepSound(m);
      StepConserves(m);
      RunConserves(Step(m));
    }
  }

  /** The loop as a whole keeps its guarantees about what it has done. */
  lemma {:induction false} RunOrderly(m: Matching)
    requires Valid(m) && Orderly(m)
    ensures Orderly(Run(m))
    decreases |m.debts| - m.di + |m.credits| - m.ci
  {
    if Active(m) {
      StepOrderly(m);
      RunOrderly(Step(m));
    }
  }

  // ---------------------------------------------------------------------------
  // Who paid what

  /** The total (unrounded) the debtor at position i has paid in ts. */
  function PaidBy(ts: seq<Transfer>, i: nat): real
  {
    if ts == [] then 0.0
    else PaidBy(ts[..|ts| - 1], i) + (if ts[|ts| - 1].debtor == i then ts[|ts| - 1].amount else 0.0)
  }

  /** The total (unrounded) the creditor at position j has received in ts. */
  function ReceivedBy(ts: seq<Transfer>, j: nat): real
  {
    if ts == [] then 0.0
    else ReceivedBy(ts[..|ts| - 1], j) + (if ts[|ts| - 1].creditor == j then ts[|ts| - 1].amount else 0.0)
  }

  /** Every remaining balance is the starting balance moved by exactly what that side has paid or received. */
  predicate Accounted(m: Matching, debts0: seq<real>, credits0: seq<real>)
  {
    && |m.debts| == |debts0| && |m.credits| == |credits0|
    && (forall i :: 0 <= i < |debts0| ==> m.debts[i] == debts0[i] + PaidBy(m.transfers, i))
    && (forall j :: 0 <= j < |credits0| ==> m.credits[j] == credits0[j] - ReceivedBy(m.transfers, j))
  }

  lemma StepAccounted(m: Matching, debts0: seq<real>, credits0: seq<real>)
    requires Valid(m) && Active(m) && Accounted(m, debts0, credits0)
    ensures Accounted(Step(m), debts0, credits0)
  {
    StepSound(m);
    var r := Step(m);
    if |r.transfers| > |m.transfers| {
      assert r.transfers[..|r.transfers| - 1] == m.transfers;
    } else {
      assert r.transfers == m.transfers;
    }
  }

  lemma {:induction false} RunAccounted(m: Matching, debts0: seq<real>, credits0: seq<real>)
    requires Valid(m) && Accounted(m, debts0, credits0)
    ensures Accounted(Run(m), debts0, credits0)
    decreases |m.debts| - m.di + |m.credits| - m.ci
  {
    if Active(m) {
      StepSound(m);
      StepAccounted(m, debts0, credits0);
      RunAccounted(Step(m), debts0, credits0);
    }
  }

  lemma {:induction false} PaidNonNegative(ts: seq<Transfer>, i: nat, j: nat)
    requires forall k :: 0 <= k < |ts| ==> ts[k].amount > 0.0
    ensures PaidBy(ts, i) >= 0.0 && ReceivedBy(ts, j) >= 0.0
  {
    if ts != [] {
      PaidNonNegative(ts[..|ts| - 1], i, j);
    }
  }

  // ---------------------------------------------------------------------------
  // The whole computation

  /** The state before the first iteration. */
  function Start(debtors: seq<Entry>, creditors: seq<Entry>): Matching
  {
    Matching(BalancesOf(debtors), BalancesOf(creditors), 0, 0, [])
  }

  /** The payment instruction for a transfer, its amount as `parseFloat(amount.toFixed(2))` gives it. */
  function ToTransaction(debtor: Entry, creditor: Entry, amount: real): Transaction
  {
    Transaction(debtor.name, creditor.name, Round2(amount), debtor.index, creditor.index)
  }

  function Render(debtors: seq<Entry>, creditors: seq<Entry>, ts: seq<Transfer>): (txs: seq<Transaction>)
    requires Fits(ts, |debtors|, |creditors|)
    ensures |txs| == |ts|
  {
    seq(|ts|, k requires 0 <= k < |ts| => ToTransaction(debtors[ts[k].debtor], creditors[ts[k].creditor], ts[k].amount))
  }

  lemma RenderAppend(debtors: seq<Entry>, creditors: seq<Entry>, ts: seq<Transfer>, t: Transfer)
    requires Fits(ts, |debtors|, |creditors|)
    requires t.debtor < |debtors| && t.creditor < |creditors|
    ensures Fits(ts + [t], |debtors|, |creditors|)
    ensures Render(debtors, creditors, ts + [t])
         == Render(debtors, creditors, ts) + [ToTransaction(debtors[t.debtor], creditors[t.creditor], t.amount)]
  {
  }

  /** The two lists are on the right sides of zero, so the starting state is valid. */
  lemma StartValid(people: seq<Person>)
    ensures Valid(Start(Partition(people, Debtors), Partition(people, Creditors)))
  {
    PartitionSpec(people, Debtors);
    PartitionSpec(people, Creditors);
    var d := Partition(people, Debtors);
    var c := Partition(people, Creditors);
    forall i | 0 <= i < |d| ensures d[i].balance <= 0.0 {
      assert d[i] in d;
    }
    forall j | 0 <= j < |c| ensures c[j].balance >= 0.0 {
      assert c[j] in c;
    }
  }

  /** The final state of the loop on a list of people (at least two). */
  function Final(people: seq<Person>): (r: Matching)
    requires |people| >= 2
    ensures Valid(r)
  {
    StartValid(people);
    Run(Start(Partition(people, Debtors), Partition(people, Creditors)))
  }

  /** `calculateSettlements(people)`, without the random transaction ids. */
  function Settlements(people: seq<Person>): seq<Transaction>
  {
    if |people| < 2 then []
    else Render(Partition(people, Debtors), Partition(people, Creditors), Final(people).transfers)
  }

  /**
   * A payment instruction makes sense for the list: it names two participants
   * by position and by name, two different participants, the payer owes and
   * the payee is owed more than the threshold, and the amount is at least one
   * cent.
   */
  predicate Sound(people: seq<Person>, tx: Transaction)
  {
    && tx.fromIndex < |people| && tx.toIndex < |people| && tx.fromIndex != tx.toIndex
    && tx.from == people[tx.fromIndex].name && tx.to == people[tx.toIndex].name
    && Balance(people, tx.fromIndex) < -Threshold && Balance(people, tx.toIndex) > Threshold
    && tx.amount >= 0.01
  }

  /** The entries of a list are the participants' own entries, all on the list's side. */
  lemma EntryOf(people: seq<Person>, side: Side, k: nat)
    requires k < |Partition(people, side)|
    ensures var e := Partition(people, side)[k];
      e.index < |people| && e.name == people[e.index].name && e.balance == Balance(people, e.index) && OnSide(e, side)
  {
    PartitionSpec(people, side);
    assert Partition(people, side)[k] in Partition(people, side);
  }

  /** Every payment instruction is between a debtor and a creditor of the list, for at least a cent. */
  lemma SettlementsSound(people: seq<Person>)
    ensures forall k :: 0 <= k < |Settlements(people)| ==> Sound(people, Settlements(people)[k])
  {
    if |people| >= 2 {
      var d, c := Partition(people, Debtors), Partition(people, Creditors);
      StartValid(people);
      var m := Start(d, c);
      RunOrderly(m);
      var ts := Run(m).transfers;
      forall k | 0 <= k < |ts| ensures Sound(people, Settlements(people)[k]) {
        assert Behind(ts[k], Run(m));
        EntryOf(people, Debtors, ts[k].debtor);
        EntryOf(people, Creditors, ts[k].creditor);
        Round2AboveThreshold(ts[k].amount);
      }
    }
  }

  /** No participant appears twice in a list. */
  lemma PositionsDistinct(people: seq<Person>, side: Side)
    ensures var p := Partition(people, side);
      forall i, j :: 0 <= i < j < |p| ==> p[i].index != p[j].index
  {
    PartitionSpec(people, side);
  }

  /**
   * Instruction b comes after instruction a in the greedy order: b's payer
   * owes no more than a's, b's payee is owed no more than a's, and the two
   * do not repeat the same payer and payee.
   */
  predicate Follows(people: seq<Person>, a: Transaction, b: Transaction)
  {
    && a.fromIndex < |people| && a.toIndex < |people| && b.fromIndex < |people| && b.toIndex < |people|
    && Balance(people, a.fromIndex) <= Balance(people, b.fromIndex)
    && Balance(people, a.toIndex) >= Balance(people, b.toIndex)
    && (a.fromIndex != b.fromIndex || a.toIndex != b.toIndex)
  }

  /** Two transfers in loop order become two instructions in greedy order. */
  lemma TransfersFollow(people: seq<Person>, s: Transfer, t: Transfer)
    requires s.debtor < |Partition(people, Debtors)| && s.creditor < |Partition(people, Creditors)|
    requires t.debtor < |Partition(people, Debtors)| && t.creditor < |Partition(people, Creditors)|
    requires InOrder(s, t)
    ensures var d, c := Partition(people, Debtors), Partition(people, Creditors);
      Follows(people, ToTransaction(d[s.debtor], c[s.creditor], s.amount), ToTransaction(d[t.debtor], c[t.creditor], t.amount))
  {
    var d, c := Partition(people, Debtors), Partition(people, Creditors);
    EntryOf(people, Debtors, s.debtor);
    EntryOf(people, Creditors, s.creditor);
    EntryOf(people, Debtors, t.debtor);
    EntryOf(people, Creditors, t.creditor);
    PositionsDistinct(people, Debtors);
    PositionsDistinct(people, Creditors);
    PartitionSpec(people, Debtors);
    PartitionSpec(people, Creditors);
    if s.debtor < t.debtor {
      assert Precedes(d[s.debtor], d[t.debtor], Debtors);
    }
    if s.creditor < t.creditor {
      assert Precedes(c[s.creditor], c[t.creditor], Creditors);
    }
  }

  /** The instructions walk down both sorted lists together and never repeat a pair. */
  lemma SettlementsOrdered(people: seq<Person>)
    ensures forall k, l :: 0 <= k < l < |Settlements(people)| ==> Follows(people, Settlements(people)[k], Settlements(people)[l])
  {
    if |people| >= 2 {
      StartValid(people);
      var m := Start(Partition(people, Debtors), Partition(people, Creditors));
      RunOrderly(m);
      var ts := Run(m).transfers;
      forall k, l | 0 <= k < l < |ts| ensures Follows(people, Settlements(people)[k], Settlements(people)[l]) {
        assert InOrder(ts[k], ts[l]);
        TransfersFollow(people, ts[k], ts[l]);
      }
    }
  }

  /** Every transfer the loop records moves a positive amount. */
  lemma RunPaysPositive(debtors: seq<Entry>, creditors: seq<Entry>)
    requires Valid(Start(debtors, creditors))
    ensures var ts := Run(Start(debtors, creditors)).transfers;
      (forall i: nat :: PaidBy(ts, i) >= 0.0) && (forall j: nat :: ReceivedBy(ts, j) >= 0.0)
  {
    var m := Start(debtors, creditors);
    var r := Run(m);
    RunOrderly(m);
    forall k | 0 <= k < |r.transfers| ensures r.transfers[k].amount > 0.0 {
      assert Behind(r.transfers[k], r);
    }
    forall i: nat ensures PaidBy(r.transfers, i) >= 0.0 {
      PaidNonNegative(r.transfers, i, 0);
    }
    forall j: nat ensures ReceivedBy(r.transfers, j) >= 0.0 {
      PaidNonNegative(r.transfers, 0, j);
    }
  }

  /** The loop never takes a debtor past even nor pays a creditor more than they are owed. */
  lemma RunPaysWithinBalances(debtors: seq<Entry>, creditors: seq<Entry>)
    requires Valid(Start(debtors, creditors))
    ensures var ts := Run(Start(debtors, creditors)).transfers;
      && (forall i :: 0 <= i < |debtors| ==> 0.0 <= PaidBy(ts, i) <= -debtors[i].balance)
      && (forall j :: 0 <= j < |creditors| ==> 0.0 <= ReceivedBy(ts, j) <= creditors[j].balance)
  {
    var m := Start(debtors, creditors);
    assert Accounted(m, m.debts, m.credits);
    RunAccounted(m, m.debts, m.credits);
    RunPaysPositive(debtors, creditors);
  }

  /** When the loop ends, every debtor or every creditor (whichever list ran out) is within a cent of even. */
  lemma RunSettlesOneSide(debtors: seq<Entry>, creditors: seq<Entry>)
    requires Valid(Start(debtors, creditors))
    ensures var ts := Run(Start(debtors, creditors)).transfers;
      || (forall i :: 0 <= i < |debtors| ==> Abs(debtors[i].balance + PaidBy(ts, i)) < Settled)
      || (forall j :: 0 <= j < |creditors| ==> Abs(creditors[j].balance - ReceivedBy(ts, j)) < Settled)
  {
    var m := Start(debtors, creditors);
    assert Accounted(m, m.debts, m.credits);
    RunAccounted(m, m.debts, m.credits);
    RunOrderly(m);
  }

  /** When nobody is owed more than the threshold, nobody is told to pay. */
  lemma NobodyOwedNothingPaid(people: seq<Person>)
    requires forall i :: 0 <= i < |people| ==> Balance(people, i) <= Threshold
    ensures Settlements(people) == []
  {
    if |people| >= 2 {
      if |Partition(people, Creditors)| > 0 {
        EntryOf(people, Creditors, 0);
        assert false;
      }
      StartValid(people);
    }
  }

  /**
   * The loop can leave a participant more than a cent from even: one person
   * 1.2 cents under the average, the others 0.4 cents over it each, and every
   * one of those is too small to be a creditor, so no instruction is given.
   */
  lemma ResidualAboveACent()
    ensures var people := [Person("a", "A", 0.988), Person("b", "B", 1.004), Person("c", "C", 1.004), Person("d", "D", 1.004)];
      Settlements(people) == [] && Balance(people, 0) == -0.012 && Abs(Balance(people, 0)) > Settled
  {
    var people := [Person("a", "A", 0.988), Person("b", "B", 1.004), Person("c", "C", 1.004), Person("d", "D", 1.004)];
    assert people[..1][..0] == [];
    assert people[..2][..1] == people[..1];
    assert people[..3][..2] == people[..2];
    assert people[..4][..3] == people[..3];
    assert people[..4] == people;
    assert Total(people[..1]) == 0.988;
    assert Total(people[..2]) == 1.992;
    assert Total(people[..3]) == 2.996;
    assert Average(people) == 1.0;
    NobodyOwedNothingPaid(people);
  }

  /** There are fewer instructions than participants, and none at all for fewer than two. */
  lemma SettlementsFewerThanPeople(people: seq<Person>)
    ensures |people| < 2 ==> Settlements(people) == []
    ensures |people| > 0 ==> |Settlements(people)| < |people|
  {
    if |people| >= 2 {
      PartitionSizes(people);
      StartValid(people);
    }
  }

  /** `calculateSettlements`: fewer than two people settle nothing; otherwise the matching loop runs on the two sorted lists. */
  method CalculateSettlements(people: seq<Person>) returns (transactions: seq<Transaction>)
    ensures transactions == Settlements(people)
  {
    if |people| < 2 {
      return [];
    }
    var debtors := Partition(people, Debtors);
    var creditors := Partition(people, Creditors);
    StartValid(people);
    transactions := MatchDebtorsToCreditors(debtors, creditors);
  }

  /**
   * The `while` loop of `calculateSettlements`, over local copies of the
   * balances of the two lists.
   */
  method MatchDebtorsToCreditors(debtors: seq<Entry>, creditors: seq<Entry>) returns (transactions: seq<Transaction>)
    requires Valid(Start(debtors, creditors))
    ensures transactions == Render(debtors, creditors, Run(Start(debtors, creditors)).transfers)
  {
    transactions := [];
    var debts := BalancesOf(debtors);
    var credits := BalancesOf(creditors);
    var debtorIndex: nat, creditorIndex: nat := 0, 0;
    ghost var transfers: seq<Transfer> := [];

    while debtorIndex < |debtors| && creditorIndex < |creditors|
      invariant |debts| == |debtors| && |credits| == |creditors|
      invariant Valid(Matching(debts, credits, debtorIndex, creditorIndex, transfers))
      invariant Run(Matching(debts, credits, debtorIndex, creditorIndex, transfers)) == Run(Start(debtors, creditors))
      invariant transactions == Render(debtors, creditors, transfers)
      decreases |debtors| - debtorIndex + |creditors| - creditorIndex
    {
      ghost var before := Matching(debts, credits, debtorIndex, creditorIndex, transfers);
      StepSound(before);
      debts, credits, debtorIndex, creditorIndex, transactions, transfers :=
        SettlePair(debtors, creditors, debts, credits, debtorIndex, creditorIndex, transactions, transfers);
    }
  }

  /**
   * One pass of the loop body: the current debtor pays the current creditor
   * the smaller of the two balances (recorded rounded to cents when above
   * the threshold), then each cursor moves on when its side is settled.
   */
  method SettlePair(debtors: seq<Entry>, creditors: seq<Entry>, debts: seq<real>, credits: seq<real>,
                    debtorIndex: nat, creditorIndex: nat, transactions: seq<Transaction>, ghost transfers: seq<Transfer>)
    returns (debts': seq<real>, credits': seq<real>, debtorIndex': nat, creditorIndex': nat,
             transactions': seq<Transaction>, ghost transfers': seq<Transfer>)
    requires |debts| == |debtors| && |credits| == |creditors|
    requires Valid(Matching(debts, credits, debtorIndex, creditorIndex, transfers))
    requires Active(Matching(debts, credits, debtorIndex, creditorIndex, transfers))
    requires transactions == Render(debtors, creditors, transfers)
    ensures Matching(debts', credits', debtorIndex', creditorIndex', transfers')
         == Step(Matching(debts, credits, debtorIndex, creditorIndex, transfers))
    ensures Fits(transfers', |debtors|, |creditors|)
    ensures transactions' == Render(debtors, creditors, transfers')
  {
    debts', credits', transactions', transfers' := debts, credits, transactions, transfers;
    var amount := Min(Abs(debts[debtorIndex]), credits[creditorIndex]);
    if amount > Threshold {
      var rounded := RoundViaString(amount);
      RenderAppend(debtors, creditors, transfers, Transfer(debtorIndex, creditorIndex, amount));
      transactions' := transactions + [Transaction(debtors[debtorIndex].name, creditors[creditorIndex].name,
                                                   rounded, debtors[debtorIndex].index, creditors[creditorIndex].index)];
      transfers' := transfers + [Transfer(debtorIndex, creditorIndex, amount)];
      debts' := debts[debtorIndex := debts[debtorIndex] + amount];
      credits' := credits[creditorIndex := credits[creditorIndex] - amount];
    }
    debtorIndex', creditorIndex' := debtorIndex, creditorIndex;
    if Abs(debts'[debtorIndex]) < Settled {
      debtorIndex' := debtorIndex + 1;
    }
    if Abs(credits'[creditorIndex]) < Settled {
      creditorIndex' := creditorIndex + 1;
    }
  }
}
