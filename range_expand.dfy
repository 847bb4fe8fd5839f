/** Splitting a range transaction of the cash-flow prototype into one entry per
    day, each carrying an equal share of the amount. */
module RangeExpand {
  import opened GoArith

  /** A UUID as an abstract value; 0 stands for the nil UUID. */
  type Uuid = nat
  const NilUuid: Uuid := 0

  /** Instants are whole hours since an epoch, in UTC. */
  type Instant = int
  const HoursPerDay := 24

  datatype RangeTransaction = RangeTransaction(
    id: Uuid,
    plannerId: Uuid,
    userId: Uuid,
    title: string,
    incomeOrExpense: string,
    category: string,
    notes: string,
    recurrenceEveryDays: int,
    recurrenceStart: Instant,
    recurrenceEnd: Instant,
    amount: real,
    source: string)

  datatype ExpandedTransaction = ExpandedTransaction(
    id: Uuid,
    rangeTransactionId: Uuid,
    userId: Uuid,
    plannerId: Uuid,
    title: string,
    transactionDate: Instant,
    incomeOrExpense: string,
    category: string,
    amount: real)

  /** The number of days of the range: whole days, truncated toward zero,
      with 0 taken as 1.  It is negative when the end precedes the start by a
      day or more. */
  function DayCount(rt: RangeTransaction): (n: int)
    ensures n != 0
    ensures (rt.recurrenceEnd - rt.recurrenceStart < 2 * HoursPerDay &&
             rt.recurrenceEnd - rt.recurrenceStart > -HoursPerDay) ==> n == 1
    ensures rt.recurrenceEnd >= rt.recurrenceStart ==> n >= 1 && (n - 1) * HoursPerDay <= rt.recurrenceEnd - rt.recurrenceStart
    ensures rt.recurrenceEnd >= rt.recurrenceStart + HoursPerDay ==>
      n * HoursPerDay <= rt.recurrenceEnd - rt.recurrenceStart < (n + 1) * HoursPerDay
    ensures rt.recurrenceEnd <= rt.recurrenceStart - HoursPerDay ==> n < 0
  {
    var span := rt.recurrenceEnd - rt.recurrenceStart;
    TruncDivRemainder(span, HoursPerDay);
    var days := TruncDiv(span, HoursPerDay);
    if days == 0 then 1 else days
  }

  /** "income" stays "income"; anything else is an expense. */
  function NormalisedKind(kind: string): (k: string)
    ensures k == "income" || k == "expense"
    ensures k == "income" <==> kind == "income"
  {
    if kind == "income" then "income" else "expense"
  }

  /** The entry for day `i` of the range. */
  function EntryOf(rt: RangeTransaction, i: nat): ExpandedTransaction
  {
    ExpandedTransaction(NilUuid, rt.id, NilUuid, NilUuid, rt.title, rt.recurrenceStart + i * HoursPerDay,
                        NormalisedKind(rt.incomeOrExpense), rt.category, rt.amount / DayCount(rt) as real)
  }

  /** RangeTransaction.Expand. */
  method Expand(rt: RangeTransaction) returns (expanded: seq<ExpandedTransaction>)
    ensures |expanded| == if DayCount(rt) < 0 then 0 else DayCount(rt)
    ensures forall i :: 0 <= i < |expanded| ==> expanded[i] == EntryOf(rt, i)
  {
    var span := rt.recurrenceEnd - rt.recurrenceStart;
    var numDays := TruncDiv(span, HoursPerDay);
    if numDays == 0 {
      numDays := 1;
    }
    var amountPerDay := rt.amount / numDays as real;
    expanded := [];
    var i := 0;
    while i < numDays
      invariant 0 <= i && (i == 0 || i <= numDays)
      invariant |expanded| == i
      invariant forall j :: 0 <= j < i ==> expanded[j] == EntryOf(rt, j)
    {
      var day := rt.recurrenceStart + i * HoursPerDay;
      var incomeOrExpense: string;
      if rt.incomeOrExpense == "income" {
        incomeOrExpense := "income";
      } else {
        incomeOrExpense := "expense";
      }
      expanded := expanded + [ExpandedTransaction(NilUuid, rt.id, NilUuid, NilUuid, rt.title, day,
                                                  incomeOrExpense, rt.category, amountPerDay)];
      i := i + 1;
    }
  }

  /** Sum of the amounts of a list of entries. */
  function Total(es: seq<ExpandedTransaction>): real
  {
    if es == [] then 0.0 else Total(es[..|es| - 1]) + es[|es| - 1].amount
  }

  /** Entries are exactly one day apart, so their dates strictly increase. */
  lemma EntryDatesIncrease(rt: RangeTransaction, i: nat, j: nat)
    requires i < j
    ensures EntryOf(rt, j).transactionDate - EntryOf(rt, i).transactionDate == (j - i) * HoursPerDay
    ensures EntryOf(rt, i).transactionDate < EntryOf(rt, j).transactionDate
  {
  }

  /** Every entry starts within the range; when the range spans at least a
      day, each entry's whole day fits before the end. */
  lemma EntriesWithinRange(rt: RangeTransaction, i: nat)
    requires rt.recurrenceEnd >= rt.recurrenceStart && i < DayCount(rt)
    ensures rt.recurrenceStart <= EntryOf(rt, i).transactionDate
    ensures rt.recurrenceEnd >= rt.recurrenceStart + HoursPerDay ==>
      EntryOf(rt, i).transactionDate + HoursPerDay <= rt.recurrenceEnd
  {
    assert (i + 1) * HoursPerDay <= DayCount(rt) * HoursPerDay;
  }

  /** Splitting keeps the total: the shares of a non-empty expansion add up to
      the range's amount. */
  lemma {:induction false} ExpandKeepsTotal(rt: RangeTransaction, es: seq<ExpandedTransaction>)
    requires DayCount(rt) > 0 && |es| == DayCount(rt)
    requires forall i :: 0 <= i < |es| ==> es[i] == EntryOf(rt, i)
    ensures Total(es) == rt.amount
  {
    EqualSharesTotal(es, rt.amount / DayCount(rt) as real);
  }

  lemma {:induction false} EqualSharesTotal(es: seq<ExpandedTransaction>, share: real)
    requires forall i :: 0 <= i < |es| ==> es[i].amount == share
    ensures Total(es) == |es| as real * share
  {
    if es != [] {
      var init := es[..|es| - 1];
      assert forall i :: 0 <= i < |init| ==> init[i] == es[i];
      EqualSharesTotal(init, share);
    }
  }
}
